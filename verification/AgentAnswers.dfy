// What an agent does about a message, as a relation between what it holds
// before and after, and what any run of messages amounts to.

module AgentAnswers {
  import opened Wrappers
  import opened Payload
  import opened AgentMemory

  datatype Message =
    | DomainUpdated(domain: DomainInfo)
    | RoutesUpdated(id: DomainId)
    | DomainDeleted(gone: DomainId, f: Option<nat>)
    | PortAppeared(network: NetworkId)
    | ResyncTimer

  datatype Snapshot = Snapshot(h: Holding, tombstones: map<DomainId, Time>, lastSync: Option<Time>, encoding: Encoding,
                               events: seq<Event>)

  // ------------------------------------------------------------------
  // A sync
  // ------------------------------------------------------------------
  // Without failures now, whatever failed before: the domains with a network
  // are known, those of them without a local port dormant, and all converges
  // if and only if what is found is repairable. From a consistent memory it
  // is, and a second sync changes nothing.
  ghost predicate Repaired(wanted: map<DomainId, DomainInfo>, local: Option<set<NetworkId>>, h: Holding, h': Holding) {
    && (DistinctFids(wanted) && RecordsRight(h, wanted) ==>
          && Applying(wanted, local, {}, Swept(h, wanted), h')
          && h'.domains == WithNetworks(wanted) && h'.dormant == WithNetworks(wanted).Keys - ActiveIds(wanted, local)
          && (Converged(wanted, local, h') <==> Repairable(wanted, local, Swept(h, wanted))))
    && (DistinctFids(wanted) && Consistent(h) && SameFids(h.domains, wanted) ==>
          && Converged(wanted, local, h') && Consistent(h') && (Converged(wanted, local, h) ==> h' == h))
  }

  // No reply changes nothing; with one, the time is kept, the sync is logged,
  // and nothing is known that the reply does not name, whatever fails.
  ghost predicate SyncedAs(world: World, now: Time, asked: bool, a: Snapshot, b: Snapshot) {
    if world.reply.None? then b == a
    else
      var wanted := WantedOf(world.reply.value, a.tombstones);
      && b.tombstones == a.tombstones && b.lastSync == Some(now)
      && OnlyPrograms(a.events + [Synced(now, asked)], b.events)
      && b.h.domains.Keys <= wanted.Keys
      && (!world.faulty ==> Repaired(wanted, world.local, a.h, b.h))
  }

  // For something unknown: not within the holdoff of another.
  ghost predicate SyncedUnlessRecent(world: World, now: Time, a: Snapshot, b: Snapshot) {
    if a.lastSync.Some? && now - a.lastSync.value < SYNC_HOLDOFF then b == a else SyncedAs(world, now, false, a, b)
  }

  // ------------------------------------------------------------------
  // One message
  // ------------------------------------------------------------------
  // A payload of its own: between syncs a programmed domain stays programmed.
  ghost predicate StaysOn(h: Holding, p: DomainInfo) {
    p.networks != {} && p.id in h.domains && p.id !in h.dormant
  }

  ghost predicate Switches(p: DomainInfo, encoding: Encoding, canUsid: bool) {
    p.encoding != encoding && (p.encoding.Usid? ==> canUsid)
  }

  ghost predicate AppliedAs(p: DomainInfo, world: World, now: Time, canUsid: bool, a: Snapshot, b: Snapshot) {
    && b.tombstones == a.tombstones && b.lastSync == a.lastSync
    && b.encoding == (if Switches(p, a.encoding, canUsid) then p.encoding else a.encoding)
    && b.events == a.events + (if StaysOn(a.h, p) || Belongs(p, world.local) then [Programmed(now, p.id, p.f)] else [])
    && (!world.faulty && RecordRight(a.h, p) ==>
          b.h == if StaysOn(a.h, p) then Activated(a.h, p) else NextHolding(a.h, p, world.local))
  }

  // A late update of a deleted domain changes nothing. Any other is applied,
  // and if it switches the encoding a sync follows.
  ghost predicate UpdateAnswered(p: DomainInfo, world: World, now: Time, canUsid: bool, a: Snapshot, b: Snapshot) {
    if p.id in a.tombstones then b == a
    else
      exists mid :: AppliedAs(p, world, now, canUsid, a, mid)
                 && if Switches(p, a.encoding, canUsid)
                    then SyncedAs(world, now, true, mid, b) || (world.faulty && b == mid)
                    else b == mid
  }

  ghost predicate RoutesAnswered(id: DomainId, world: World, now: Time, a: Snapshot, b: Snapshot) {
    if id !in a.h.domains then SyncedUnlessRecent(world, now, a, b)
    else if id in a.h.dormant then b == a
    else b == a.(events := a.events + [Programmed(now, id, a.h.domains[id].f)])
  }

  // The function id to take down: the one recorded, or else the message's.
  function ToRemove(h: Holding, id: DomainId, f: Option<nat>): set<nat> {
    if id in h.recorded then {h.recorded[id]} else if f.Some? then {f.value} else {}
  }

  ghost predicate DeleteAnswered(id: DomainId, f: Option<nat>, world: World, now: Time, a: Snapshot, b: Snapshot) {
    && b.events == a.events + [Deleted(now, id)] && b.lastSync == a.lastSync && b.encoding == a.encoding
    && b.h.domains == a.h.domains - {id} && b.h.dormant == a.h.dormant - {id} && b.h.recorded == a.h.recorded - {id}
    && a.h.present - ToRemove(a.h, id, f) <= b.h.present <= a.h.present
    && (!world.faulty ==> b.h.present == a.h.present - ToRemove(a.h, id, f))
    && id in b.tombstones && b.tombstones[id] == now
    && (forall d | d != id ::
          d in b.tombstones <==> d in a.tombstones && now - a.tombstones[d] < TOMBSTONE_SECONDS)
    && (forall d | d in b.tombstones && d != id :: d in a.tombstones && b.tombstones[d] == a.tombstones[d])
  }

  ghost predicate HasNetwork(h: Holding, id: DomainId, n: NetworkId) {
    id in h.domains && n in h.domains[id].networks
  }

  // The gateway ports of the programmed domains with the network.
  ghost predicate PortLogged(n: NetworkId, world: World, now: Time, a: Snapshot, b: Snapshot) {
    && b == a.(events := b.events) && OnlyPrograms(a.events, b.events)
    && forall id, f :: ProgrammedSince(b.events, |a.events|, id, f) <==>
         n in world.bound && HasNetwork(a.h, id, n) && id !in a.h.dormant && f == a.h.domains[id].f
  }

  // The first port of a dormant domain, or a port of a network nobody has.
  ghost predicate PortAnswered(n: NetworkId, world: World, now: Time, a: Snapshot, b: Snapshot) {
    exists mid :: PortLogged(n, world, now, a, mid)
               && if exists id :: id in a.h.dormant && HasNetwork(a.h, id, n) then SyncedAs(world, now, true, mid, b)
                  else if exists id :: HasNetwork(a.h, id, n) then b == mid
                  else SyncedUnlessRecent(world, now, mid, b)
  }

  ghost predicate Answers(m: Message, world: World, now: Time, canUsid: bool, a: Snapshot, b: Snapshot) {
    match m
    case DomainUpdated(p) => UpdateAnswered(p, world, now, canUsid, a, b)
    case RoutesUpdated(id) => RoutesAnswered(id, world, now, a, b)
    case DomainDeleted(id, f) => DeleteAnswered(id, f, world, now, a, b)
    case PortAppeared(n) => PortAnswered(n, world, now, a, b)
    case ResyncTimer => SyncedAs(world, now, true, a, b)
  }

  // Each message of a run, in its turn.
  ghost predicate AllAnswered(messages: seq<(Message, World)>, times: seq<Time>, canUsid: bool, trail: seq<Snapshot>)
    requires |times| == |messages|
  {
    && |trail| == |messages| + 1
    && forall i | 0 <= i < |messages| :: Answers(messages[i].0, messages[i].1, times[i], canUsid, trail[i], trail[i + 1])
  }

  // ------------------------------------------------------------------
  // Putting an answer together
  // ------------------------------------------------------------------
  lemma SyncedFrom(world: World, now: Time, asked: bool, a: Snapshot, b: Snapshot, wanted: map<DomainId, DomainInfo>)
    requires world.reply.Some? && wanted == WantedOf(world.reply.value, a.tombstones)
    requires b.tombstones == a.tombstones && b.lastSync == Some(now)
    requires OnlyPrograms(a.events + [Synced(now, asked)], b.events)
    requires b.h.domains.Keys <= wanted.Keys
    requires !world.faulty ==> Repaired(wanted, world.local, a.h, b.h)
    ensures SyncedAs(world, now, asked, a, b)
  {
    hide Repaired, OnlyPrograms;
  }

  lemma NoReply(world: World, now: Time, asked: bool, a: Snapshot)
    requires world.reply.None?
    ensures SyncedAs(world, now, asked, a, a)
  {
  }

  // What a sync amounts to.
  lemma Concludes(wanted: map<DomainId, DomainInfo>, local: Option<set<NetworkId>>, h: Holding, swept: Holding, h': Holding)
    requires swept == Swept(h, wanted) && h.dormant <= h.domains.Keys
    requires forall id | id in wanted :: wanted[id].id == id
    requires DistinctFids(wanted) && RecordsRight(swept, wanted) && Applying(wanted, local, wanted.Keys, swept, swept) ==>
               Applying(wanted, local, {}, swept, h')
    ensures Repaired(wanted, local, h, h')
  {
    hide *;
    if DistinctFids(wanted) {
      if Consistent(h) && SameFids(h.domains, wanted) {
        ConsistentRepairs(wanted, local, h);
      }
      if RecordsRight(h, wanted) {
        SweptFacts(wanted, h);
        SyncStarts(wanted, local, swept);
        RepairsIff(wanted, local, swept, h');
        if Converged(wanted, local, h') {
          ConvergedIsConsistent(wanted, local, h');
          if Converged(wanted, local, h) {
            ConvergedIsUnique(wanted, local, h, h');
          }
        }
      }
    }
    RepairedFrom(wanted, local, h, h');
  }

  lemma RepairedFrom(wanted: map<DomainId, DomainInfo>, local: Option<set<NetworkId>>, h: Holding, h': Holding)
    requires DistinctFids(wanted) && RecordsRight(h, wanted) ==>
               && Applying(wanted, local, {}, Swept(h, wanted), h')
               && h'.domains == WithNetworks(wanted) && h'.dormant == WithNetworks(wanted).Keys - ActiveIds(wanted, local)
               && (Converged(wanted, local, h') <==> Repairable(wanted, local, Swept(h, wanted)))
    requires DistinctFids(wanted) && Consistent(h) && SameFids(h.domains, wanted) ==>
               && Converged(wanted, local, h') && Consistent(h') && (Converged(wanted, local, h) ==> h' == h)
    ensures Repaired(wanted, local, h, h')
  {
    hide DistinctFids, RecordsRight, Applying, Swept, Converged, Repairable, Consistent, SameFids, ActiveIds, WithNetworks;
  }

  lemma SweptFacts(wanted: map<DomainId, DomainInfo>, h: Holding)
    requires RecordsRight(h, wanted) && h.dormant <= h.domains.Keys
    ensures var s := Swept(h, wanted);
            && s.domains.Keys <= wanted.Keys && s.dormant <= wanted.Keys && s.present <= Fids(wanted) && RecordsRight(s, wanted)
  {
    hide Fids;
  }

  lemma SpacedIs(world: World, now: Time, a: Snapshot)
    ensures forall b :: SyncedUnlessRecent(world, now, a, b) <==>
              if a.lastSync.Some? && now - a.lastSync.value < SYNC_HOLDOFF then b == a else SyncedAs(world, now, false, a, b)
  {
    hide SyncedAs;
  }

  lemma LateUpdate(p: DomainInfo, world: World, now: Time, canUsid: bool, a: Snapshot)
    requires p.id in a.tombstones
    ensures UpdateAnswered(p, world, now, canUsid, a, a)
  {
    hide AppliedAs, Switches, SyncedAs;
  }

  lemma AppliedFrom(p: DomainInfo, world: World, now: Time, canUsid: bool, a: Snapshot, b: Snapshot)
    requires b.tombstones == a.tombstones && b.lastSync == a.lastSync
    requires b.encoding == (if Switches(p, a.encoding, canUsid) then p.encoding else a.encoding)
    requires b.events == a.events + (if StaysOn(a.h, p) || Belongs(p, world.local) then [Programmed(now, p.id, p.f)] else [])
    requires !world.faulty && RecordRight(a.h, p) ==>
               b.h == if StaysOn(a.h, p) then Activated(a.h, p) else NextHolding(a.h, p, world.local)
    ensures AppliedAs(p, world, now, canUsid, a, b)
  {
    hide Switches, StaysOn, Belongs, RecordRight, Activated, NextHolding;
  }

  lemma UpdatedFrom(p: DomainInfo, world: World, now: Time, canUsid: bool, a: Snapshot, mid: Snapshot, b: Snapshot)
    requires p.id !in a.tombstones && AppliedAs(p, world, now, canUsid, a, mid)
    requires if Switches(p, a.encoding, canUsid) then SyncedAs(world, now, true, mid, b) || (world.faulty && b == mid) else b == mid
    ensures UpdateAnswered(p, world, now, canUsid, a, b)
  {
    hide AppliedAs, Switches, SyncedAs;
  }

  lemma PortFrom(n: NetworkId, world: World, now: Time, a: Snapshot, mid: Snapshot, b: Snapshot)
    requires PortLogged(n, world, now, a, mid)
    requires if exists id :: id in a.h.dormant && HasNetwork(a.h, id, n) then SyncedAs(world, now, true, mid, b)
             else if exists id :: HasNetwork(a.h, id, n) then b == mid
             else SyncedUnlessRecent(world, now, mid, b)
    ensures PortAnswered(n, world, now, a, b)
  {
    hide PortLogged, SyncedAs, SyncedUnlessRecent, HasNetwork;
  }

  lemma NoneSince(events: seq<Event>)
    ensures forall id, f :: !ProgrammedSince(events, |events|, id, f)
  {
  }

  lemma LoggedOne(start: seq<Event>, a: seq<Event>, b: seq<Event>, n: nat, now: Time, id: DomainId, f: nat)
    requires OnlyPrograms(start, a) && n <= |a| && b == a + [Programmed(now, id, f)]
    ensures OnlyPrograms(start, b)
    ensures forall j, g :: ProgrammedSince(b, n, j, g) <==> ProgrammedSince(a, n, j, g) || (j == id && g == f)
  {
    assert b[|a|] == Programmed(now, id, f);
    forall j, g
      ensures ProgrammedSince(b, n, j, g) <==> ProgrammedSince(a, n, j, g) || (j == id && g == f)
    {
      if ProgrammedSince(a, n, j, g) {
        ProgrammedLater(a, b, n, j, g);
      }
      if ProgrammedSince(b, n, j, g) {
        var i :| n <= i < |b| && b[i].Programmed? && b[i].id == j && b[i].f == g;
        assert i < |a| ==> a[i] == b[i];
      }
    }
  }

  lemma DeletedParts(id: DomainId, f: Option<nat>, world: World, now: Time, a: Snapshot, b: Snapshot)
    requires DeleteAnswered(id, f, world, now, a, b)
    ensures b.events == a.events + [Deleted(now, id)]
    ensures b.h.present <= a.h.present
    ensures forall j | j in b.h.recorded :: j in a.h.recorded && b.h.recorded[j] == a.h.recorded[j]
  {
    hide ToRemove;
  }

  lemma DeleteIsLogged(m: Message, world: World, now: Time, canUsid: bool, a: Snapshot, b: Snapshot)
    requires m.DomainDeleted? && Answers(m, world, now, canUsid, a, b)
    ensures b.events == a.events + [Deleted(now, m.gone)]
  {
    DeletedParts(m.gone, m.f, world, now, a, b);
    hide DeleteAnswered;
  }

  lemma AnswersAre(m: Message, world: World, now: Time, canUsid: bool, a: Snapshot, b: Snapshot)
    requires m.DomainUpdated? ==> UpdateAnswered(m.domain, world, now, canUsid, a, b)
    requires m.RoutesUpdated? ==> RoutesAnswered(m.id, world, now, a, b)
    requires m.DomainDeleted? ==> DeleteAnswered(m.gone, m.f, world, now, a, b)
    requires m.PortAppeared? ==> PortAnswered(m.network, world, now, a, b)
    requires m.ResyncTimer? ==> SyncedAs(world, now, true, a, b)
    ensures Answers(m, world, now, canUsid, a, b)
  {
    hide UpdateAnswered, RoutesAnswered, DeleteAnswered, PortAnswered, SyncedAs;
  }

  lemma DeletedFrom(id: DomainId, f: Option<nat>, world: World, now: Time, a: Snapshot, b: Snapshot)
    requires b.events == a.events + [Deleted(now, id)] && b.lastSync == a.lastSync && b.encoding == a.encoding
    requires b.h.domains == a.h.domains - {id} && b.h.dormant == a.h.dormant - {id} && b.h.recorded == a.h.recorded - {id}
    requires b.h.present <= a.h.present
    requires var g := if id in a.h.recorded then Some(a.h.recorded[id]) else f;
             && (g.None? ==> b.h.present == a.h.present)
             && (g.Some? ==> a.h.present - {g.value} <= b.h.present && (!world.faulty ==> g.value !in b.h.present))
    requires b.tombstones == Bury(a.tombstones, id, now)
    ensures DeleteAnswered(id, f, world, now, a, b)
  {
    BuryIs(a.tombstones, id, now);
    hide Bury;
    assert !world.faulty ==> b.h.present == a.h.present - ToRemove(a.h, id, f);
  }

  lemma NoneAnswered(messages: seq<(Message, World)>, times: seq<Time>, canUsid: bool, trail: seq<Snapshot>)
    requires |times| == |messages| && |trail| == 1
    ensures AllAnswered(messages[..0], times[..0], canUsid, trail)
  {
  }

  lemma AnsweredOne(messages: seq<(Message, World)>, times: seq<Time>, canUsid: bool, trail: seq<Snapshot>, b: Snapshot)
    requires |times| == |messages| && 0 < |trail| <= |messages|
    requires var i := |trail| - 1;
             && AllAnswered(messages[..i], times[..i], canUsid, trail)
             && Answers(messages[i].0, messages[i].1, times[i], canUsid, trail[i], b)
    ensures AllAnswered(messages[..|trail|], times[..|trail|], canUsid, trail + [b])
  {
    hide Answers;
    var n := |trail| - 1;
    var done, when, after := messages[..n + 1], times[..n + 1], trail + [b];
    forall i | 0 <= i < |done|
      ensures Answers(done[i].0, done[i].1, when[i], canUsid, after[i], after[i + 1])
    {
      if i < n {
        assert messages[..n][i] == done[i] && times[..n][i] == when[i];
        assert after[i] == trail[i] && after[i + 1] == trail[i + 1];
      }
    }
  }
}
