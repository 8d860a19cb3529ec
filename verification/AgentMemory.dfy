// What an agent remembers, what its node holds, and what a sync should leave.

module AgentMemory {
  import opened Wrappers
  import opened Payload

  // Monotonic seconds.
  type Time = real

  const TOMBSTONE_SECONDS: real := 3600.0
  const SYNC_HOLDOFF: real := 60.0

  datatype Encoding = FullSids | Usid

  // One domain of the payload, as far as this protocol goes.
  datatype DomainInfo = DomainInfo(id: DomainId, f: nat, networks: set<NetworkId>, encoding: Encoding)

  // What a handler finds when it asks: the server's reply, if the call
  // succeeded; the networks with a live port here, if OVSDB could be read;
  // those the OVS agent has given a local VLAN; and whether commands may fail.
  datatype World = World(reply: Option<seq<DomainInfo>>, local: Option<set<NetworkId>>, bound: set<NetworkId>, faulty: bool)

  // ------------------------------------------------------------------
  // What happened
  // ------------------------------------------------------------------
  datatype Event =
    // a message said the domain is deleted
    | Deleted(at: Time, id: DomainId)
    // VRF, routes or a gateway port of the domain were written
    | Programmed(at: Time, id: DomainId, f: nat)
    // a full sync got its reply; `asked` unless for something unknown
    | Synced(at: Time, asked: bool)

  // No domain is programmed within the hour after its deletion.
  ghost predicate NeverRevived(events: seq<Event>) {
    forall i, j | 0 <= i < j < |events| && events[i].Deleted? && events[j].Programmed? && events[i].id == events[j].id ::
      events[j].at - events[i].at >= TOMBSTONE_SECONDS
  }

  // A sync nobody asked for comes no sooner than the holdoff after any other.
  ghost predicate SyncsSpaced(events: seq<Event>) {
    forall i, j | 0 <= i < j < |events| && events[i].Synced? && events[j].Synced? && !events[j].asked ::
      events[j].at - events[i].at >= SYNC_HOLDOFF
  }

  // Every deletion still within the hour is remembered.
  ghost predicate DeletesRemembered(clock: Time, tombstones: map<DomainId, Time>, events: seq<Event>) {
    forall i | 0 <= i < |events| && events[i].Deleted? ::
      || (events[i].id in tombstones && tombstones[events[i].id] >= events[i].at)
      || clock - events[i].at >= TOMBSTONE_SECONDS
  }

  ghost predicate SyncRemembered(lastSync: Option<Time>, events: seq<Event>) {
    forall i | 0 <= i < |events| && events[i].Synced? :: lastSync.Some? && events[i].at <= lastSync.value
  }

  ghost predicate Past(clock: Time, events: seq<Event>) {
    forall i | 0 <= i < |events| :: events[i].at <= clock
  }

  // The whole of what the agent must remember.
  ghost predicate Remembers(clock: Time, domains: map<DomainId, DomainInfo>, dormant: set<DomainId>,
                            tombstones: map<DomainId, Time>, lastSync: Option<Time>, events: seq<Event>) {
    && tombstones.Keys !! domains.Keys && dormant <= domains.Keys
    && (forall id | id in domains :: domains[id].id == id)
    && (lastSync.Some? ==> lastSync.value <= clock)
    && NeverRevived(events) && SyncsSpaced(events) && Past(clock, events)
    && DeletesRemembered(clock, tombstones, events) && SyncRemembered(lastSync, events)
  }

  lemma LaterClock(clock: Time, now: Time, tombstones: map<DomainId, Time>, events: seq<Event>)
    requires clock <= now && DeletesRemembered(clock, tombstones, events) && Past(clock, events)
    ensures DeletesRemembered(now, tombstones, events) && Past(now, events)
  {
  }

  lemma ProgramStep(now: Time, tombstones: map<DomainId, Time>, lastSync: Option<Time>, events: seq<Event>, id: DomainId, f: nat)
    requires id !in tombstones && DeletesRemembered(now, tombstones, events) && Past(now, events)
    requires NeverRevived(events) && SyncsSpaced(events) && SyncRemembered(lastSync, events)
    ensures var events' := events + [Programmed(now, id, f)];
            && NeverRevived(events') && SyncsSpaced(events') && Past(now, events')
            && DeletesRemembered(now, tombstones, events') && SyncRemembered(lastSync, events')
  {
  }

  function Bury(tombstones: map<DomainId, Time>, id: DomainId, now: Time): map<DomainId, Time> {
    (map d | d in tombstones && now - tombstones[d] < TOMBSTONE_SECONDS :: tombstones[d])[id := now]
  }

  // Forgetting tombstones an hour old loses nothing.
  lemma DeleteStep(now: Time, tombstones: map<DomainId, Time>, lastSync: Option<Time>, events: seq<Event>, id: DomainId)
    requires DeletesRemembered(now, tombstones, events) && Past(now, events)
    requires NeverRevived(events) && SyncsSpaced(events) && SyncRemembered(lastSync, events)
    ensures var events' := events + [Deleted(now, id)];
            && NeverRevived(events') && SyncsSpaced(events') && Past(now, events')
            && DeletesRemembered(now, Bury(tombstones, id, now), events') && SyncRemembered(lastSync, events')
  {
  }

  lemma BuryIs(tombstones: map<DomainId, Time>, id: DomainId, now: Time)
    ensures var after := Bury(tombstones, id, now);
            && id in after && after[id] == now
            && (forall d | d != id :: d in after <==> d in tombstones && now - tombstones[d] < TOMBSTONE_SECONDS)
            && (forall d | d in after && d != id :: d in tombstones && after[d] == tombstones[d])
  {
  }

  lemma BuryKeeps(clock: Time, domains: map<DomainId, DomainInfo>, dormant: set<DomainId>, tombstones: map<DomainId, Time>,
                  lastSync: Option<Time>, events: seq<Event>, id: DomainId)
    requires Remembers(clock, domains, dormant, tombstones, lastSync, events)
    ensures Remembers(clock, domains - {id}, dormant - {id}, Bury(tombstones, id, clock), lastSync, events + [Deleted(clock, id)])
  {
    DeleteStep(clock, tombstones, lastSync, events, id);
    BuryIs(tombstones, id, clock);
    hide NeverRevived, SyncsSpaced, Past, DeletesRemembered, SyncRemembered, Bury;
  }

  lemma SyncStep(now: Time, tombstones: map<DomainId, Time>, lastSync: Option<Time>, events: seq<Event>, asked: bool)
    requires DeletesRemembered(now, tombstones, events) && Past(now, events)
    requires NeverRevived(events) && SyncsSpaced(events) && SyncRemembered(lastSync, events)
    requires asked || lastSync.None? || now - lastSync.value >= SYNC_HOLDOFF
    ensures var events' := events + [Synced(now, asked)];
            && NeverRevived(events') && SyncsSpaced(events') && Past(now, events')
            && DeletesRemembered(now, tombstones, events') && SyncRemembered(Some(now), events')
  {
  }

  // ------------------------------------------------------------------
  // Nothing is programmed without a trace
  // ------------------------------------------------------------------
  ghost predicate ProgrammedSince(events: seq<Event>, n: nat, id: DomainId, f: nat) {
    exists i :: n <= i < |events| && events[i].Programmed? && events[i].id == id && events[i].f == f
  }

  ghost predicate PutThereSince(events: seq<Event>, n: nat, f: nat) {
    exists id :: ProgrammedSince(events, n, id, f)
  }

  // A domain newly recorded, and a function id newly in the kernel, come with
  // a programming event since n.
  ghost predicate Accounted(recorded0: map<DomainId, nat>, present0: set<nat>, recorded: map<DomainId, nat>, present: set<nat>,
                            events: seq<Event>, n: nat) {
    && n <= |events|
    && (forall id | id in recorded :: (id in recorded0 && recorded0[id] == recorded[id]) || ProgrammedSince(events, n, id, recorded[id]))
    && forall f | f in present :: f in present0 || PutThereSince(events, n, f)
  }

  lemma ProgrammedLater(a: seq<Event>, b: seq<Event>, n: nat, id: DomainId, f: nat)
    requires a <= b && ProgrammedSince(a, n, id, f)
    ensures ProgrammedSince(b, n, id, f)
  {
    var i :| n <= i < |a| && a[i].Programmed? && a[i].id == id && a[i].f == f;
    assert b[i] == a[i];
  }

  lemma PutThereLater(a: seq<Event>, b: seq<Event>, n: nat, f: nat)
    requires a <= b && PutThereSince(a, n, f)
    ensures PutThereSince(b, n, f)
  {
    var id :| ProgrammedSince(a, n, id, f);
    ProgrammedLater(a, b, n, id, f);
  }

  lemma NothingNew(recorded0: map<DomainId, nat>, present0: set<nat>, recorded: map<DomainId, nat>, present: set<nat>, events: seq<Event>)
    requires present <= present0 && forall id | id in recorded :: id in recorded0 && recorded[id] == recorded0[id]
    ensures Accounted(recorded0, present0, recorded, present, events, |events|)
  {
  }

  lemma ProgrammedOne(recorded: map<DomainId, nat>, present: set<nat>, recorded': map<DomainId, nat>, present': set<nat>,
                      events: seq<Event>, now: Time, id: DomainId, f: nat)
    requires recorded' == recorded[id := f] || recorded' == recorded
    requires present' <= present + {f}
    ensures Accounted(recorded, present, recorded', present', events + [Programmed(now, id, f)], |events|)
  {
    var after := events + [Programmed(now, id, f)];
    assert after[|events|] == Programmed(now, id, f);
    assert ProgrammedSince(after, |events|, id, f);
  }

  lemma AccountedJoin(r0: map<DomainId, nat>, p0: set<nat>, r1: map<DomainId, nat>, p1: set<nat>, r2: map<DomainId, nat>,
                      p2: set<nat>, a: seq<Event>, b: seq<Event>, n: nat)
    requires Accounted(r0, p0, r1, p1, a, n) && Accounted(r1, p1, r2, p2, b, |a|) && a <= b
    ensures Accounted(r0, p0, r2, p2, b, n)
  {
    forall id | id in r2 && !(id in r0 && r0[id] == r2[id])
      ensures ProgrammedSince(b, n, id, r2[id])
    {
      if id in r1 && r1[id] == r2[id] {
        ProgrammedLater(a, b, n, id, r2[id]);
      }
    }
    forall f | f in p2 && f !in p0
      ensures PutThereSince(b, n, f)
    {
      if f in p1 {
        PutThereLater(a, b, n, f);
      } else {
        var id :| ProgrammedSince(b, |a|, id, f);
        assert ProgrammedSince(b, n, id, f);
      }
    }
  }

  lemma AccountedLater(r0: map<DomainId, nat>, p0: set<nat>, r: map<DomainId, nat>, p: set<nat>, a: seq<Event>, b: seq<Event>, n: nat)
    requires Accounted(r0, p0, r, p, a, n) && a <= b
    ensures Accounted(r0, p0, r, p, b, n)
  {
    hide ProgrammedSince, PutThereSince;
    forall id | id in r && !(id in r0 && r0[id] == r[id])
      ensures ProgrammedSince(b, n, id, r[id])
    {
      ProgrammedLater(a, b, n, id, r[id]);
    }
    forall f | f in p && f !in p0
      ensures PutThereSince(b, n, f)
    {
      PutThereLater(a, b, n, f);
    }
  }

  ghost predicate DeletedAt(events: seq<Event>, n: nat, at: Time, id: DomainId) {
    exists i :: n <= i < |events| && events[i] == Deleted(at, id)
  }

  lemma DeletedLater(a: seq<Event>, b: seq<Event>, n: nat)
    requires a <= b
    ensures forall at, id | DeletedAt(a, n, at, id) :: DeletedAt(b, n, at, id)
  {
    forall at, id | DeletedAt(a, n, at, id)
      ensures DeletedAt(b, n, at, id)
    {
      var i :| n <= i < |a| && a[i] == Deleted(at, id);
      assert b[i] == Deleted(at, id);
    }
  }

  lemma DeletedNow(a: seq<Event>, b: seq<Event>, n: nat, at: Time, id: DomainId)
    requires n <= |a| && b == a + [Deleted(at, id)]
    ensures DeletedAt(b, n, at, id)
  {
    assert b[|a|] == Deleted(at, id);
  }

  lemma OneNow(a: seq<Event>, b: seq<Event>, now: Time, id: DomainId)
    requires b == a + [Deleted(now, id)]
    ensures AllNow(b, |a|, now)
  {
  }

  lemma RememberedParts(clock: Time, domains: map<DomainId, DomainInfo>, dormant: set<DomainId>,
                        tombstones: map<DomainId, Time>, lastSync: Option<Time>, events: seq<Event>)
    requires Remembers(clock, domains, dormant, tombstones, lastSync, events)
    ensures NeverRevived(events) && SyncsSpaced(events) && tombstones.Keys !! domains.Keys
  {
  }

  // Everything since n happened now.
  ghost predicate AllNow(events: seq<Event>, n: nat, now: Time) {
    forall i | n <= i < |events| :: events[i].at == now
  }

  // ------------------------------------------------------------------
  // What a sync should leave
  // ------------------------------------------------------------------
  predicate IsLocal(p: DomainInfo, local: Option<set<NetworkId>>) {
    local.None? || p.networks * local.value != {}
  }

  predicate IsActive(p: DomainInfo, local: Option<set<NetworkId>>) {
    p.networks != {} && IsLocal(p, local)
  }

  // The payloads of the reply that count: not of a domain deleted here, and
  // of two for one domain the later.
  ghost function WantedOf(reply: seq<DomainInfo>, tombstones: map<DomainId, Time>): map<DomainId, DomainInfo> {
    if reply == [] then map[]
    else
      var before, p := WantedOf(reply[..|reply| - 1], tombstones), reply[|reply| - 1];
      if p.id in tombstones then before else before[p.id := p]
  }

  ghost function WithNetworks(wanted: map<DomainId, DomainInfo>): map<DomainId, DomainInfo> {
    map id | id in wanted && wanted[id].networks != {} :: wanted[id]
  }

  // The domain has a network with a live port here. Where the ports cannot be
  // read, any network may have one.
  ghost predicate Belongs(p: DomainInfo, local: Option<set<NetworkId>>) {
    p.networks != {} && (local.None? || exists n :: n in p.networks && n in local.value)
  }

  lemma BelongsIs(p: DomainInfo, local: Option<set<NetworkId>>)
    ensures IsActive(p, local) <==> Belongs(p, local)
  {
    if local.Some? {
      assert forall n :: n in p.networks * local.value <==> n in p.networks && n in local.value;
    }
  }

  ghost function ActiveIds(wanted: map<DomainId, DomainInfo>, local: Option<set<NetworkId>>): set<DomainId> {
    set id | id in wanted && Belongs(wanted[id], local)
  }

  lemma ActiveIdsAre(wanted: map<DomainId, DomainInfo>, local: Option<set<NetworkId>>)
    ensures forall id :: id in ActiveIds(wanted, local) <==> id in wanted && IsActive(wanted[id], local)
  {
    hide IsActive, Belongs;
    forall id | id in wanted
      ensures id in ActiveIds(wanted, local) <==> IsActive(wanted[id], local)
    {
      BelongsIs(wanted[id], local);
    }
  }

  ghost predicate DistinctFids(wanted: map<DomainId, DomainInfo>) {
    forall a, b | a in wanted && b in wanted && wanted[a].f == wanted[b].f :: a == b
  }

  // A domain keeps its function id.
  ghost predicate SameFids(domains: map<DomainId, DomainInfo>, wanted: map<DomainId, DomainInfo>) {
    forall id | id in domains && id in wanted :: domains[id].f == wanted[id].f
  }

  // What the agent and its dataplane know, and what the kernel holds.
  datatype Holding = Holding(domains: map<DomainId, DomainInfo>, dormant: set<DomainId>,
                             recorded: map<DomainId, nat>, present: set<nat>)

  // Memory and kernel agree: what is recorded is known and not dormant, and
  // what is dormant is not there.
  ghost predicate Consistent(h: Holding) {
    && (forall id | id in h.recorded :: id in h.domains && id !in h.dormant && h.recorded[id] == h.domains[id].f)
    && (forall id | id in h.dormant :: id in h.domains && h.domains[id].f !in h.present)
  }

  // Exactly the domains with a live local port are programmed, the others
  // with a network are known and dormant, and nothing else is there.
  ghost predicate Converged(wanted: map<DomainId, DomainInfo>, local: Option<set<NetworkId>>, h: Holding) {
    && h.domains == WithNetworks(wanted)
    && h.dormant == WithNetworks(wanted).Keys - ActiveIds(wanted, local)
    && h.recorded == (map id | id in ActiveIds(wanted, local) :: wanted[id].f)
    && h.present == set id | id in ActiveIds(wanted, local) :: wanted[id].f
  }

  ghost function Fids(wanted: map<DomainId, DomainInfo>): set<nat> {
    set id | id in wanted :: wanted[id].f
  }

  // What is recorded of a wanted domain is its function id.
  ghost predicate RecordsRight(h: Holding, wanted: map<DomainId, DomainInfo>) {
    forall id | id in h.recorded && id in wanted :: h.recorded[id] == wanted[id].f
  }

  // ------------------------------------------------------------------
  // One payload
  // ------------------------------------------------------------------
  // Whether applying a payload takes down what the node holds of its domain.
  // A domain remembered as dormant is believed to have nothing here.
  predicate TakesDown(h: Holding, p: DomainInfo, local: Option<set<NetworkId>>) {
    if p.networks == {} then (p.id in h.domains && p.id !in h.dormant) || p.f in h.present
    else !IsLocal(p, local) && p.id !in h.dormant && (p.id in h.domains || p.f in h.present)
  }

  function Activated(h: Holding, p: DomainInfo): Holding {
    Holding(h.domains[p.id := p], h.dormant - {p.id}, h.recorded[p.id := p.f], h.present + {p.f})
  }

  function NextHolding(h: Holding, p: DomainInfo, local: Option<set<NetworkId>>): Holding {
    if IsActive(p, local) then Activated(h, p)
    else
      var gone := TakesDown(h, p, local);
      Holding(if p.networks == {} then h.domains - {p.id} else h.domains[p.id := p],
              if p.networks == {} then h.dormant - {p.id} else h.dormant + {p.id},
              if gone then h.recorded - {p.id} else h.recorded, if gone then h.present - {p.f} else h.present)
  }

  ghost predicate RecordRight(h: Holding, p: DomainInfo) {
    p.id in h.recorded ==> h.recorded[p.id] == p.f
  }

  // ------------------------------------------------------------------
  // A whole sync
  // ------------------------------------------------------------------
  ghost function Stale(h: Holding, wanted: map<DomainId, DomainInfo>): set<DomainId> {
    h.domains.Keys - wanted.Keys
  }

  // Known domains that go, with the VRFs recorded for them.
  ghost function Without(h: Holding, ids: set<DomainId>): Holding {
    Holding(h.domains - ids, h.dormant - ids, h.recorded - ids,
            h.present - set id | id in ids && id in h.recorded :: h.recorded[id])
  }

  // What is left when the stale domains and the orphans are gone.
  ghost function Swept(h: Holding, wanted: map<DomainId, DomainInfo>): Holding {
    var rest := Without(h, Stale(h, wanted));
    rest.(present := rest.present * Fids(wanted))
  }

  // One domain after its payload was applied to h0.
  ghost predicate AsLeft(p: DomainInfo, id: DomainId, local: Option<set<NetworkId>>, h0: Holding, h: Holding) {
    && (id in h.domains <==> p.networks != {}) && (id in h.domains ==> h.domains[id] == p)
    && (id in h.dormant <==> p.networks != {} && !IsLocal(p, local))
    && (id in h.recorded <==> IsActive(p, local) || (!TakesDown(h0, p, local) && id in h0.recorded))
    && (id in h.recorded ==> h.recorded[id] == p.f)
    && (p.f in h.present <==> IsActive(p, local) || (!TakesDown(h0, p, local) && p.f in h0.present))
  }

  ghost predicate Untouched(p: DomainInfo, id: DomainId, h0: Holding, h: Holding) {
    && (id in h.domains <==> id in h0.domains) && (id in h.dormant <==> id in h0.dormant)
    && (id in h.recorded <==> id in h0.recorded) && (id in h.recorded && id in h0.recorded ==> h.recorded[id] == h0.recorded[id])
    && (p.f in h.present <==> p.f in h0.present)
  }

  // Part way through the payloads: those in `todo` are still to come.
  ghost predicate Applying(wanted: map<DomainId, DomainInfo>, local: Option<set<NetworkId>>, todo: set<DomainId>,
                           h0: Holding, h: Holding) {
    && todo <= wanted.Keys && h.domains.Keys <= wanted.Keys && h.dormant <= wanted.Keys && h.present <= Fids(wanted)
    && (forall id | id !in wanted :: id in h.recorded <==> id in h0.recorded)
    && (forall id | id in wanted && id in todo :: Untouched(wanted[id], id, h0, h))
    && forall id | id in wanted && id !in todo :: AsLeft(wanted[id], id, local, h0, h)
  }

  lemma ApplyStep(wanted: map<DomainId, DomainInfo>, local: Option<set<NetworkId>>, todo: set<DomainId>, h0: Holding,
                  h: Holding, id: DomainId)
    requires Applying(wanted, local, todo, h0, h) && DistinctFids(wanted) && RecordsRight(h0, wanted)
    requires id in todo && id in wanted && wanted[id].id == id
    ensures RecordRight(h, wanted[id]) && Applying(wanted, local, todo - {id}, h0, NextHolding(h, wanted[id], local))
  {
    hide *;
    var p := wanted[id];
    var h' := NextHolding(h, p, local);
    ApplyingParts(wanted, local, todo, h0, h);
    RecordIsRight(wanted, h0, h, id);
    forall j | j in wanted && j != id
      ensures j in todo ==> Untouched(wanted[j], j, h0, h')
      ensures j !in todo ==> AsLeft(wanted[j], j, local, h0, h')
    {
      ApartFrom(wanted, id, j);
      if j in todo {
        OtherUntouched(wanted[j], j, p, local, h0, h);
      } else {
        OtherAsLeft(wanted[j], j, p, local, h0, h);
      }
    }
    OwnIsLeft(p, local, h0, h);
    NextWithin(wanted, local, h0, h, id);
    ApplyingFrom(wanted, local, todo - {id}, h0, h');
  }

  lemma ApplyingParts(wanted: map<DomainId, DomainInfo>, local: Option<set<NetworkId>>, todo: set<DomainId>, h0: Holding, h: Holding)
    requires Applying(wanted, local, todo, h0, h)
    ensures todo <= wanted.Keys && h.domains.Keys <= wanted.Keys && h.dormant <= wanted.Keys && h.present <= Fids(wanted)
    ensures forall id | id !in wanted :: id in h.recorded <==> id in h0.recorded
    ensures forall id | id in wanted && id in todo :: Untouched(wanted[id], id, h0, h)
    ensures forall id | id in wanted && id !in todo :: AsLeft(wanted[id], id, local, h0, h)
  {
    hide AsLeft, Untouched, Fids;
  }

  lemma ApplyingFrom(wanted: map<DomainId, DomainInfo>, local: Option<set<NetworkId>>, todo: set<DomainId>, h0: Holding, h: Holding)
    requires todo <= wanted.Keys && h.domains.Keys <= wanted.Keys && h.dormant <= wanted.Keys && h.present <= Fids(wanted)
    requires forall id | id !in wanted :: id in h.recorded <==> id in h0.recorded
    requires forall id | id in wanted && id in todo :: Untouched(wanted[id], id, h0, h)
    requires forall id | id in wanted && id !in todo :: AsLeft(wanted[id], id, local, h0, h)
    ensures Applying(wanted, local, todo, h0, h)
  {
    hide AsLeft, Untouched, Fids;
  }

  lemma RecordIsRight(wanted: map<DomainId, DomainInfo>, h0: Holding, h: Holding, id: DomainId)
    requires RecordsRight(h0, wanted) && id in wanted && wanted[id].id == id && Untouched(wanted[id], id, h0, h)
    ensures RecordRight(h, wanted[id]) && RecordRight(h0, wanted[id])
  {
  }

  lemma ApartFrom(wanted: map<DomainId, DomainInfo>, id: DomainId, j: DomainId)
    requires DistinctFids(wanted) && id in wanted && j in wanted && id != j
    ensures wanted[id].f != wanted[j].f
  {
  }

  lemma OtherUntouched(q: DomainInfo, j: DomainId, p: DomainInfo, local: Option<set<NetworkId>>, h0: Holding, h: Holding)
    requires Untouched(q, j, h0, h) && j != p.id && q.f != p.f
    ensures Untouched(q, j, h0, NextHolding(h, p, local))
  {
    hide IsActive, TakesDown;
  }

  lemma OtherAsLeft(q: DomainInfo, j: DomainId, p: DomainInfo, local: Option<set<NetworkId>>, h0: Holding, h: Holding)
    requires AsLeft(q, j, local, h0, h) && j != p.id && q.f != p.f
    ensures AsLeft(q, j, local, h0, NextHolding(h, p, local))
  {
    hide IsActive, TakesDown, IsLocal;
  }

  lemma NextWithin(wanted: map<DomainId, DomainInfo>, local: Option<set<NetworkId>>, h0: Holding, h: Holding, id: DomainId)
    requires h.domains.Keys <= wanted.Keys && h.dormant <= wanted.Keys && h.present <= Fids(wanted)
    requires forall j | j !in wanted :: j in h.recorded <==> j in h0.recorded
    requires id in wanted && wanted[id].id == id
    ensures var h' := NextHolding(h, wanted[id], local);
            && h'.domains.Keys <= wanted.Keys && h'.dormant <= wanted.Keys && h'.present <= Fids(wanted)
            && forall j | j !in wanted :: j in h'.recorded <==> j in h0.recorded
  {
    hide IsActive, TakesDown;
  }

  lemma OwnIsLeft(p: DomainInfo, local: Option<set<NetworkId>>, h0: Holding, h: Holding)
    requires Untouched(p, p.id, h0, h) && RecordRight(h0, p)
    ensures AsLeft(p, p.id, local, h0, NextHolding(h, p, local))
  {
    hide IsLocal;
  }

  lemma SyncStarts(wanted: map<DomainId, DomainInfo>, local: Option<set<NetworkId>>, h: Holding)
    requires h.domains.Keys <= wanted.Keys && h.dormant <= wanted.Keys && h.present <= Fids(wanted)
    ensures Applying(wanted, local, wanted.Keys, h, h)
  {
    hide AsLeft;
  }

  // ------------------------------------------------------------------
  // When a sync repairs
  // ------------------------------------------------------------------
  // Nothing is held of a domain that should not be here but what applying its
  // payload takes down: no VRF behind a domain remembered as dormant, and no
  // record of a domain that is not known.
  ghost predicate Repairable(wanted: map<DomainId, DomainInfo>, local: Option<set<NetworkId>>, h: Holding) {
    && (forall id | id in wanted && !IsActive(wanted[id], local) ::
          TakesDown(h, wanted[id], local) || (id !in h.recorded && wanted[id].f !in h.present))
    && forall id | id in h.recorded :: id in wanted
  }

  // A sync without failures, from any memory and any kernel, converges if and
  // only if what it finds after the sweep is repairable.
  lemma RepairsIff(wanted: map<DomainId, DomainInfo>, local: Option<set<NetworkId>>, h0: Holding, h: Holding)
    requires DistinctFids(wanted) && Applying(wanted, local, {}, h0, h)
    ensures Converged(wanted, local, h) <==> Repairable(wanted, local, h0)
    ensures h.domains == WithNetworks(wanted) && h.dormant == WithNetworks(wanted).Keys - ActiveIds(wanted, local)
  {
    ActiveIdsAre(wanted, local);
    hide IsLocal, Belongs, ActiveIds;
    forall id | id in wanted
      ensures AsLeft(wanted[id], id, local, h0, h)
    {
    }
    assert h.domains == WithNetworks(wanted);
    assert h.dormant == WithNetworks(wanted).Keys - ActiveIds(wanted, local);
    if Repairable(wanted, local, h0) {
      RepairedIs(wanted, local, h0, h);
    }
    if Converged(wanted, local, h) {
      NothingLeft(wanted, local, h0, h);
    }
  }

  lemma RepairedIs(wanted: map<DomainId, DomainInfo>, local: Option<set<NetworkId>>, h0: Holding, h: Holding)
    requires DistinctFids(wanted) && Applying(wanted, local, {}, h0, h) && Repairable(wanted, local, h0)
    ensures h.recorded == (map id | id in ActiveIds(wanted, local) :: wanted[id].f)
    ensures h.present == set id | id in ActiveIds(wanted, local) :: wanted[id].f
  {
    ActiveIdsAre(wanted, local);
    hide IsLocal, TakesDown, Belongs, ActiveIds;
    forall id | id in wanted
      ensures (id in h.recorded <==> IsActive(wanted[id], local)) && (wanted[id].f in h.present <==> IsActive(wanted[id], local))
      ensures id in h.recorded ==> h.recorded[id] == wanted[id].f
    {
      assert AsLeft(wanted[id], id, local, h0, h);
    }
    assert forall id | id in h.recorded :: id in wanted;
    assert h.present <= Fids(wanted);
    hide AsLeft, Untouched, IsActive, Repairable, Applying;
  }

  lemma NothingLeft(wanted: map<DomainId, DomainInfo>, local: Option<set<NetworkId>>, h0: Holding, h: Holding)
    requires DistinctFids(wanted) && Applying(wanted, local, {}, h0, h) && Converged(wanted, local, h)
    ensures Repairable(wanted, local, h0)
  {
    hide IsLocal, TakesDown;
    forall id | id in wanted && !IsActive(wanted[id], local)
      ensures TakesDown(h0, wanted[id], local) || (id !in h0.recorded && wanted[id].f !in h0.present)
    {
      assert AsLeft(wanted[id], id, local, h0, h);
    }
  }

  // Memory that agrees with the kernel is repairable, and stays so.
  lemma ConsistentRepairs(wanted: map<DomainId, DomainInfo>, local: Option<set<NetworkId>>, h: Holding)
    requires forall id | id in wanted :: wanted[id].id == id
    requires Consistent(h) && SameFids(h.domains, wanted)
    ensures RecordsRight(h, wanted) && Repairable(wanted, local, Swept(h, wanted))
  {
    hide IsLocal, TakesDown;
    forall id | id in wanted && !IsActive(wanted[id], local)
      ensures TakesDown(Swept(h, wanted), wanted[id], local)
              || (id !in Swept(h, wanted).recorded && wanted[id].f !in Swept(h, wanted).present)
    {
      ConsistentRepairsOne(wanted, local, h, id);
    }
  }

  lemma ConsistentRepairsOne(wanted: map<DomainId, DomainInfo>, local: Option<set<NetworkId>>, h: Holding, id: DomainId)
    requires Consistent(h) && SameFids(h.domains, wanted) && id in wanted && wanted[id].id == id && !IsActive(wanted[id], local)
    ensures var s := Swept(h, wanted); TakesDown(s, wanted[id], local) || (id !in s.recorded && wanted[id].f !in s.present)
  {
    hide IsLocal, Fids;
  }

  lemma ConvergedIsConsistent(wanted: map<DomainId, DomainInfo>, local: Option<set<NetworkId>>, h: Holding)
    requires Converged(wanted, local, h) && DistinctFids(wanted)
    ensures Consistent(h) && SameFids(h.domains, wanted)
  {
    hide IsLocal;
  }

  // Two converged states for one reply are one.
  lemma ConvergedIsUnique(wanted: map<DomainId, DomainInfo>, local: Option<set<NetworkId>>, h: Holding, h': Holding)
    requires Converged(wanted, local, h) && Converged(wanted, local, h')
    ensures h == h'
  {
  }

  // A VRF left behind a dormant domain, by a removal that failed without a
  // word, outlives this sync and is as it was for the next.
  lemma LeakStays(wanted: map<DomainId, DomainInfo>, local: Option<set<NetworkId>>, h: Holding, h': Holding, id: DomainId)
    requires Applying(wanted, local, {}, Swept(h, wanted), h') && id in wanted && wanted[id].id == id
    requires wanted[id].networks != {} && !IsLocal(wanted[id], local) && id in h.dormant && wanted[id].f in h.present
    requires forall j | j in Stale(h, wanted) && j in h.recorded :: h.recorded[j] != wanted[id].f
    ensures id in h'.dormant && wanted[id].f in h'.present
  {
    hide IsLocal;
    assert AsLeft(wanted[id], id, local, Swept(h, wanted), h');
  }

  // One such node: domain 1 is remembered as dormant, its VRF is still there,
  // and no network has a port. The sync takes nothing down.
  lemma LeakIsThere(encoding: Encoding) returns (wanted: map<DomainId, DomainInfo>, local: Option<set<NetworkId>>, h: Holding, h': Holding)
    ensures wanted == map[1 := DomainInfo(1, 5, {7}, encoding)] && local == Some({})
    ensures h == Holding(wanted, {1}, map[], {5}) && h' == h
    ensures DistinctFids(wanted) && Applying(wanted, local, {}, Swept(h, wanted), h')
    ensures !IsLocal(wanted[1], local) && (forall j | j in Stale(h, wanted) && j in h.recorded :: h.recorded[j] != wanted[1].f)
    ensures !Repairable(wanted, local, Swept(h, wanted)) && !Converged(wanted, local, h')
  {
    var p := DomainInfo(1, 5, {7}, encoding);
    wanted, local := map[1 := p], Some({});
    h := Holding(wanted, {1}, map[], {5});
    h' := h;
    assert Fids(wanted) == {5} by {
      assert wanted[1].f in Fids(wanted);
    }
    assert Swept(h, wanted) == h;
    SyncStarts(wanted, local, h);
    ApplyStep(wanted, local, {1}, h, h, 1);
    assert NextHolding(h, p, local) == h;
    RepairsIff(wanted, local, h, h);
  }

  lemma WithoutOne(h: Holding, ids: set<DomainId>, id: DomainId)
    requires id !in ids
    ensures var r := Without(h, ids);
            Without(h, ids + {id}) == Holding(r.domains - {id}, r.dormant - {id}, r.recorded - {id},
                                              if id in r.recorded then r.present - {r.recorded[id]} else r.present)
  {
    var r, more := Without(h, ids), Without(h, ids + {id});
    assert more.present == if id in r.recorded then r.present - {r.recorded[id]} else r.present;
  }

  lemma WithoutNone(h: Holding)
    ensures Without(h, {}) == h
  {
    assert Without(h, {}).present == h.present;
  }

  // Nothing but programming happened since.
  ghost predicate OnlyPrograms(before: seq<Event>, events: seq<Event>) {
    before <= events && forall i | |before| <= i < |events| :: events[i].Programmed?
  }

  lemma NoPrograms(events: seq<Event>)
    ensures OnlyPrograms(events, events)
  {
  }

  lemma ProgramsJoin(a: seq<Event>, b: seq<Event>, c: seq<Event>)
    requires OnlyPrograms(a, b) && OnlyPrograms(b, c)
    ensures OnlyPrograms(a, c)
  {
    forall i | |a| <= i < |c|
      ensures c[i].Programmed?
    {
      if i < |b| {
        assert c[i] == b[i];
      }
    }
  }

  lemma NothingYet(events: seq<Event>, now: Time)
    ensures AllNow(events, |events|, now)
  {
  }

  lemma NowJoin(before: seq<Event>, events: seq<Event>, n: nat, now: Time)
    requires n <= |before| && before <= events && AllNow(before, n, now) && AllNow(events, |before|, now)
    ensures AllNow(events, n, now)
  {
    forall i | n <= i < |events|
      ensures events[i].at == now
    {
      if i < |before| {
        assert events[i] == before[i];
      }
    }
  }

  lemma ProgramsExtend(before: seq<Event>, events: seq<Event>)
    requires OnlyPrograms(before, events)
    ensures before <= events
  {
  }

  lemma {:induction false} WantedFacts(reply: seq<DomainInfo>, tombstones: map<DomainId, Time>)
    ensures WantedOf(reply, tombstones).Keys !! tombstones.Keys
    ensures forall id | id in WantedOf(reply, tombstones) :: WantedOf(reply, tombstones)[id].id == id
  {
    if reply != [] {
      WantedFacts(reply[..|reply| - 1], tombstones);
    }
  }
}
