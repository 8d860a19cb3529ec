// The agent's protocol: which domains a node knows, which it programs, and
// what it refuses to bring back.

module Agent {
  import opened Wrappers
  import opened Payload
  import opened AgentMemory
  import opened AgentAnswers

  // ------------------------------------------------------------------
  // The node's dataplane, VRF by VRF
  // ------------------------------------------------------------------
  class Node {
    const canUsid: bool
    // Whether a command may fail, as things are now.
    var faulty: bool
    // Function ids with a VRF or a SID rule in the kernel.
    var present: set<nat>
    // Those whose table ends in the unreachable default.
    var sealed: set<nat>
    // The domains recorded as programmed.
    var domains: map<DomainId, nat>
    var encoding: Encoding

    constructor (faulty: bool, canUsid: bool, present: set<nat>, sealed: set<nat>)
      ensures this.faulty == faulty && this.canUsid == canUsid
      ensures this.present == present && this.sealed == sealed && domains == map[] && encoding == FullSids
    {
      this.faulty, this.canUsid, this.present, this.sealed := faulty, canUsid, present, sealed;
      domains, encoding := map[], FullSids;
    }

    // An encoding this node cannot honour is refused.
    method EnsureEncoding(e: Encoding) returns (changed: bool)
      modifies this`encoding
      ensures changed <==> e != old(encoding) && (e.Usid? ==> canUsid)
      ensures encoding == if changed then e else old(encoding)
    {
      changed := e != encoding && (e.Usid? ==> canUsid);
      if changed {
        encoding := e;
      }
    }

    // A domain is recorded only once its VRF is sealed.
    method EnsureDomain(id: DomainId, f: nat) returns (ok: bool)
      modifies this`present, this`sealed, this`domains
      ensures old(present) <= present <= old(present) + {f} && old(sealed) <= sealed <= old(sealed) + {f}
      ensures ok ==> f in present && f in sealed && domains == old(domains)[id := f]
      ensures !ok ==> domains == old(domains)
      ensures !faulty ==> ok
    {
      var works: bool := *;
      if faulty && !works {
        return false;
      }
      present := present + {f};
      works := *;
      if faulty && !works {
        return false;
      }
      sealed := sealed + {f};
      works := *;
      if faulty && !works {
        return false;
      }
      domains := domains[id := f];
      ok := true;
    }

    // The recorded function id is the one torn down; the caller's serves for
    // a domain this process never programmed.
    method DeleteDomain(id: Option<DomainId>, f: Option<nat>) returns (ok: bool)
      modifies this`present, this`sealed, this`domains
      ensures domains == if id.Some? then old(domains) - {id.value} else old(domains)
      ensures present <= old(present) && sealed <= old(sealed)
      ensures var g := if id.Some? && id.value in old(domains) then Some(old(domains)[id.value]) else f;
              && (g.None? ==> present == old(present))
              && (g.Some? ==> old(present) - {g.value} <= present && (!faulty ==> g.value !in present))
              && (g.Some? ==> old(sealed) - {g.value} <= sealed)
      ensures !faulty ==> ok
    {
      ok := true;
      var g := f;
      if id.Some? && id.value in domains {
        g := Some(domains[id.value]);
      }
      if id.Some? {
        domains := domains - {id.value};
      }
      if g.None? {
        return;
      }
      if faulty {
        var gone: bool := *;
        ok := *;
        if !gone {
          return;
        }
      }
      present, sealed := present - {g.value}, sealed - {g.value};
    }

    method PresentFunctionIds() returns (r: Option<set<nat>>)
      ensures r.Some? ==> r.value == present
      ensures !faulty ==> r.Some?
    {
      var readable: bool := *;
      r := if !faulty || readable then Some(present) else None;
    }
  }

  class Agent {
    const node: Node
    // The last payload of each known domain.
    var domains: map<DomainId, DomainInfo>
    // Those of them that are not programmed here.
    var dormant: set<DomainId>
    var tombstones: map<DomainId, Time>
    var lastSync: Option<Time>
    ghost var events: seq<Event>
    // What the monotonic clock reads.
    var clock: Time

    // Nothing remembered as deleted is known or programmed.
    ghost predicate Valid()
      reads this, node
    {
      Remembers(clock, domains, dormant, tombstones, lastSync, events) && tombstones.Keys !! node.domains.Keys
    }

    ghost function Held(): Holding
      reads this, node
    {
      Holding(domains, dormant, node.domains, node.present)
    }

    ghost function Snap(): Snapshot
      reads this, node
    {
      Snapshot(Held(), tombstones, lastSync, node.encoding, events)
    }

    // An agent starts with no memory, on whatever kernel it finds.
    constructor (node: Node, clock: Time)
      requires node.domains == map[]
      ensures Valid() && Consistent(Held()) && this.node == node && this.clock == clock
      ensures domains == map[] && tombstones == map[] && events == []
    {
      this.node := node;
      domains, dormant, tombstones, lastSync := map[], {}, map[], None;
      this.clock := clock;
      this.events := [];
    }

    // ----------------------------------------------------------------
    // One domain
    // ----------------------------------------------------------------
    // The kernel state of a domain goes, if it was programmed or left over.
    method TearDown(p: DomainInfo, programmed: bool) returns (ok: bool)
      modifies node`present, node`sealed, node`domains
      ensures node.present <= old(node.present)
      ensures forall id | id in node.domains :: id in old(node.domains) && node.domains[id] == old(node.domains)[id]
      ensures !node.faulty ==> ok
      ensures !node.faulty && (p.id in old(node.domains) ==> old(node.domains)[p.id] == p.f) ==>
                if programmed || p.f in old(node.present)
                then node.domains == old(node.domains) - {p.id} && node.present == old(node.present) - {p.f}
                else node.domains == old(node.domains) && node.present == old(node.present)
    {
      ok := true;
      var present := node.PresentFunctionIds();
      if programmed || (present.Some? && p.f in present.value) {
        ok := node.DeleteDomain(Some(p.id), Some(p.f));
      }
    }

    // A domain with no network has no state on any node.
    method RetireDomain(p: DomainInfo) returns (ok: bool)
      requires Valid() && p.networks == {}
      modifies this`domains, this`dormant, node`present, node`sealed, node`domains
      ensures Valid() && node.present <= old(node.present)
      ensures forall id | id in node.domains :: id in old(node.domains) && node.domains[id] == old(node.domains)[id]
      ensures domains.Keys <= old(domains.Keys) && (!node.faulty ==> ok)
      ensures !node.faulty && RecordRight(old(Held()), p) ==> Held() == NextHolding(old(Held()), p, None)
    {
      var programmed := p.id in domains && p.id !in dormant;
      dormant := dormant - {p.id};
      ok := TearDown(p, programmed);
      if ok {
        domains := domains - {p.id};
      }
    }

    // A domain without a local port is known, with none of its state here.
    method MakeDormant(p: DomainInfo, ghost local: Option<set<NetworkId>>) returns (ok: bool)
      requires Valid() && p.id !in tombstones && p.networks != {} && !IsLocal(p, local)
      modifies this`domains, this`dormant, node`present, node`sealed, node`domains
      ensures Valid() && node.present <= old(node.present)
      ensures forall id | id in node.domains :: id in old(node.domains) && node.domains[id] == old(node.domains)[id]
      ensures domains.Keys <= old(domains.Keys) + {p.id} && (!node.faulty ==> ok)
      ensures !node.faulty && RecordRight(old(Held()), p) ==> Held() == NextHolding(old(Held()), p, local)
    {
      ok := true;
      if p.id !in dormant {
        ok := TearDown(p, p.id in domains);
        if !ok {
          return;
        }
      }
      domains := domains[p.id := p];
      dormant := dormant + {p.id};
    }

    // The node converges to one payload. Between full syncs a programmed
    // domain stays programmed even when its last local port has left.
    method ApplyDomain(p: DomainInfo, fromSync: bool, world: World) returns (ok: bool, changed: bool)
      requires Valid() && p.id !in tombstones
      modifies this`domains, this`dormant, this`events, node`present, node`sealed, node`domains, node`encoding
      ensures Valid() && OnlyPrograms(old(events), events) && AllNow(events, |old(events)|, clock)
      ensures events == old(events) + if (!fromSync && StaysOn(old(Held()), p)) || Belongs(p, world.local)
                                      then [Programmed(clock, p.id, p.f)] else []
      ensures Accounted(old(node.domains), old(node.present), node.domains, node.present, events, |old(events)|)
      ensures changed == Switches(p, old(node.encoding), node.canUsid)
      ensures node.encoding == if changed then p.encoding else old(node.encoding)
      ensures domains.Keys <= old(domains.Keys) + {p.id} && (!node.faulty ==> ok)
      ensures !node.faulty && RecordRight(old(Held()), p) ==>
                Held() == if !fromSync && StaysOn(old(Held()), p)
                          then Activated(old(Held()), p) else NextHolding(old(Held()), p, world.local)
    {
      hide NeverRevived, SyncsSpaced, Past, DeletesRemembered, SyncRemembered, IsLocal, Accounted, TakesDown, Belongs;
      BelongsIs(p, world.local);
      changed := node.EnsureEncoding(p.encoding);
      if p.networks == {} {
        ok := RetireDomain(p);
        RetiredAlike(old(Held()), p, world.local);
        NothingNew(old(node.domains), old(node.present), node.domains, node.present, events);
        return;
      }
      var programmed := p.id in domains && p.id !in dormant;
      if !IsLocal(p, world.local) && (fromSync || !programmed) {
        ok := MakeDormant(p, world.local);
        NothingNew(old(node.domains), old(node.present), node.domains, node.present, events);
        return;
      }
      ok := Activate(p);
    }

    lemma RetiredAlike(h: Holding, p: DomainInfo, local: Option<set<NetworkId>>)
      requires p.networks == {}
      ensures NextHolding(h, p, None) == NextHolding(h, p, local)
    {
    }

    // The VRF, the gateway ports, the routes.
    method Activate(p: DomainInfo) returns (ok: bool)
      requires Valid() && p.id !in tombstones
      modifies this`domains, this`dormant, this`events, node`present, node`sealed, node`domains
      ensures Valid() && events == old(events) + [Programmed(clock, p.id, p.f)]
      ensures Accounted(old(node.domains), old(node.present), node.domains, node.present, events, |old(events)|)
      ensures domains.Keys <= old(domains.Keys) + {p.id}
      ensures !node.faulty ==> ok && Held() == Activated(old(Held()), p)
    {
      hide NeverRevived, SyncsSpaced, Past, DeletesRemembered, SyncRemembered, Accounted;
      dormant := dormant - {p.id};
      ProgramStep(clock, tombstones, lastSync, events, p.id, p.f);
      events := events + [Programmed(clock, p.id, p.f)];
      ok := node.EnsureDomain(p.id, p.f);
      ProgrammedOne(old(node.domains), old(node.present), node.domains, node.present, old(events), clock, p.id, p.f);
      if ok && node.faulty {
        // gateway ports and routes
        ok := *;
      }
      if ok {
        domains := domains[p.id := p];
      }
    }

    // ----------------------------------------------------------------
    // A full sync
    // ----------------------------------------------------------------
    // The payloads that count, each domain's latest.
    method Wanted(reply: seq<DomainInfo>) returns (wanted: map<DomainId, DomainInfo>)
      ensures wanted == WantedOf(reply, tombstones)
    {
      wanted := map[];
      for i := 0 to |reply|
        invariant wanted == WantedOf(reply[..i], tombstones)
      {
        assert reply[..i + 1][..i] == reply[..i];
        if reply[i].id !in tombstones {
          wanted := wanted[reply[i].id := reply[i]];
        }
      }
      assert reply[..|reply|] == reply;
    }

    // Domains this process knows that the server no longer has.
    method RemoveStale(wanted: map<DomainId, DomainInfo>)
      requires Valid()
      modifies this`domains, this`dormant, node`present, node`sealed, node`domains
      ensures Valid() && domains.Keys <= wanted.Keys && node.present <= old(node.present)
      ensures forall id | id in node.domains :: id in old(node.domains) && node.domains[id] == old(node.domains)[id]
      ensures !node.faulty ==> Held() == Without(old(Held()), Stale(old(Held()), wanted))
    {
      hide *;
      ghost var h0, stale := Held(), domains.Keys - wanted.Keys;
      var todo := domains.Keys - wanted.Keys;
      WithoutNone(h0);
      HeldIs();
      StaleIs(h0, wanted);
      assert stale - todo == {};
      while todo != {}
        invariant Valid() && todo <= stale && domains.Keys <= wanted.Keys + todo && node.present <= old(node.present)
        invariant forall id | id in node.domains :: id in old(node.domains) && node.domains[id] == old(node.domains)[id]
        invariant !node.faulty ==> Held() == Without(h0, stale - todo)
      {
        var id: DomainId :| id in todo;
        WithoutOne(h0, stale - todo, id);
        assert stale - (todo - {id}) == (stale - todo) + {id};
        todo := todo - {id};
        RemoveOne(id);
      }
      assert stale - {} == stale;
    }

    lemma StaleIs(h: Holding, wanted: map<DomainId, DomainInfo>)
      ensures Stale(h, wanted) == h.domains.Keys - wanted.Keys
    {
    }

    method RemoveOne(id: DomainId)
      requires Valid()
      modifies this`domains, this`dormant, node`present, node`sealed, node`domains
      ensures Valid() && domains == old(domains) - {id} && node.present <= old(node.present)
      ensures forall j | j in node.domains :: j in old(node.domains) && node.domains[j] == old(node.domains)[j]
      ensures var r := old(Held());
              !node.faulty ==> Held() == Holding(r.domains - {id}, r.dormant - {id}, r.recorded - {id},
                                                 if id in r.recorded then r.present - {r.recorded[id]} else r.present)
    {
      hide NeverRevived, SyncsSpaced, Past, DeletesRemembered, SyncRemembered;
      var ok := node.DeleteDomain(Some(id), None);
      domains := domains - {id};
      dormant := dormant - {id};
    }

    // VRFs in the kernel that no domain on the server owns.
    method CollectKernelOrphans(wanted: map<DomainId, DomainInfo>)
      modifies node`present, node`sealed, node`domains
      ensures node.present <= old(node.present) && node.domains == old(node.domains)
      ensures !node.faulty ==> node.present == old(node.present) * Fids(wanted)
    {
      var present := node.PresentFunctionIds();
      if present.None? {
        return;
      }
      var fids := set id | id in wanted :: wanted[id].f;
      var todo := present.value - fids;
      while todo != {}
        invariant todo <= old(node.present) - fids && node.present <= old(node.present) && node.domains == old(node.domains)
        invariant !node.faulty ==> node.present == old(node.present) * fids + todo
      {
        var f: nat :| f in todo;
        todo := todo - {f};
        var ok := node.DeleteDomain(None, Some(f));
      }
    }

    method ApplyAll(wanted: map<DomainId, DomainInfo>, world: World)
      requires Valid() && wanted.Keys !! tombstones.Keys && forall id | id in wanted :: wanted[id].id == id
      modifies this`domains, this`dormant, this`events, node`present, node`sealed, node`domains, node`encoding
      ensures Valid() && OnlyPrograms(old(events), events) && AllNow(events, |old(events)|, clock)
      ensures Accounted(old(node.domains), old(node.present), node.domains, node.present, events, |old(events)|)
      ensures domains.Keys <= old(domains.Keys) + wanted.Keys
      ensures !node.faulty && DistinctFids(wanted) && RecordsRight(old(Held()), wanted)
              && old(Applying(wanted, world.local, wanted.Keys, Held(), Held())) ==>
                Applying(wanted, world.local, {}, old(Held()), Held())
    {
      hide *;
      var todo := wanted.Keys;
      ghost var h0 := Held();
      ghost var good := !node.faulty && DistinctFids(wanted) && RecordsRight(h0, wanted) && Applying(wanted, world.local, todo, h0, h0);
      NoPrograms(events);
      NothingNew(node.domains, node.present, node.domains, node.present, events);
      NothingYet(events, clock);
      while todo != {}
        invariant Valid() && todo <= wanted.Keys && OnlyPrograms(old(events), events) && AllNow(events, |old(events)|, clock)
        invariant Accounted(old(node.domains), old(node.present), node.domains, node.present, events, |old(events)|)
        invariant domains.Keys <= old(domains.Keys) + wanted.Keys
        invariant good ==> Applying(wanted, world.local, todo, h0, Held())
      {
        var id: DomainId :| id in todo;
        ghost var before, h, recorded, present := events, Held(), node.domains, node.present;
        if good {
          ApplyStep(wanted, world.local, todo, h0, h, id);
        }
        var ok, changed := ApplyDomain(wanted[id], true, world);
        ProgramsExtend(old(events), before);
        ProgramsExtend(before, events);
        AccountedJoin(old(node.domains), old(node.present), recorded, present, node.domains, node.present, before, events, |old(events)|);
        ProgramsJoin(old(events), before, events);
        NowJoin(before, events, |old(events)|, clock);
        todo := todo - {id};
      }
    }

    // Converges to whatever the server says. A sync for something unknown
    // waits out the holdoff first.
    method DoSyncState(world: World, asked: bool)
      requires Valid() && (asked || lastSync.None? || clock - lastSync.value >= SYNC_HOLDOFF)
      requires node.faulty == world.faulty
      modifies this`domains, this`dormant, this`events, this`lastSync, node`present, node`sealed, node`domains, node`encoding
      ensures Valid() && old(events) <= events && AllNow(events, |old(events)|, clock)
      ensures Accounted(old(node.domains), old(node.present), node.domains, node.present, events, |old(events)|)
      ensures SyncedAs(world, clock, asked, old(Snap()), Snap())
    {
      hide *;
      NothingNew(node.domains, node.present, node.domains, node.present, events);
      NothingYet(events, clock);
      ghost var a := Snap();
      HeldIs();
      if world.reply.None? {
        NoReply(world, clock, asked, a);
        return;
      }
      var wanted := Sweep(world.reply.value, asked);
      ghost var swept, before, recorded, present := Held(), events, node.domains, node.present;
      ApplyAll(wanted, world);
      ProgramsExtend(before, events);
      AccountedJoin(old(node.domains), old(node.present), recorded, present, node.domains, node.present, before, events, |old(events)|);
      NowJoin(before, events, |old(events)|, clock);
      if !node.faulty {
        Concludes(wanted, world.local, a.h, swept, Held());
      }
      HeldIs();
      SyncedFrom(world, clock, asked, a, Snap(), wanted);
    }

    lemma HeldIs()
      requires Valid()
      ensures Held() == Holding(domains, dormant, node.domains, node.present) && dormant <= domains.Keys
      ensures Snap() == Snapshot(Held(), tombstones, lastSync, node.encoding, events)
    {
    }

    // The reply is in: what nobody wants goes.
    method Sweep(reply: seq<DomainInfo>, asked: bool) returns (wanted: map<DomainId, DomainInfo>)
      requires Valid() && (asked || lastSync.None? || clock - lastSync.value >= SYNC_HOLDOFF)
      modifies this`domains, this`dormant, this`events, this`lastSync, node`present, node`sealed, node`domains
      ensures Valid() && wanted == WantedOf(reply, tombstones) && lastSync == Some(clock)
      ensures wanted.Keys !! tombstones.Keys && forall id | id in wanted :: wanted[id].id == id
      ensures events == old(events) + [Synced(clock, asked)] && AllNow(events, |old(events)|, clock)
      ensures Accounted(old(node.domains), old(node.present), node.domains, node.present, events, |old(events)|)
      ensures domains.Keys <= wanted.Keys
      ensures !node.faulty ==> Held() == Swept(old(Held()), wanted)
    {
      SyncStep(clock, tombstones, lastSync, events, asked);
      hide NeverRevived, SyncsSpaced, Past, DeletesRemembered, SyncRemembered, WantedOf, Accounted, Without, Fids, Stale;
      lastSync := Some(clock);
      events := events + [Synced(clock, asked)];
      wanted := Wanted(reply);
      WantedFacts(reply, tombstones);
      RemoveStale(wanted);
      CollectKernelOrphans(wanted);
      NothingNew(old(node.domains), old(node.present), node.domains, node.present, old(events));
      AccountedLater(old(node.domains), old(node.present), node.domains, node.present, old(events), events, |old(events)|);
    }

    method SyncUnlessRecent(world: World)
      requires Valid() && node.faulty == world.faulty
      modifies this`domains, this`dormant, this`events, this`lastSync, node`present, node`sealed, node`domains, node`encoding
      ensures Valid() && old(events) <= events && AllNow(events, |old(events)|, clock)
      ensures Accounted(old(node.domains), old(node.present), node.domains, node.present, events, |old(events)|)
      ensures SyncedUnlessRecent(world, clock, old(Snap()), Snap())
    {
      ghost var a := Snap();
      SpacedIs(world, clock, a);
      hide *;
      NothingNew(node.domains, node.present, node.domains, node.present, events);
      NothingYet(events, clock);
      HeldIs();
      if lastSync.Some? && clock - lastSync.value < SYNC_HOLDOFF {
        return;
      }
      DoSyncState(world, false);
    }

    // ----------------------------------------------------------------
    // Messages and port events
    // ----------------------------------------------------------------
    method Tick(now: Time)
      requires Valid() && clock <= now
      modifies this`clock
      ensures Valid() && clock == now && Snap() == old(Snap())
    {
      LaterClock(clock, now, tombstones, events);
      hide NeverRevived, SyncsSpaced, Past, DeletesRemembered, SyncRemembered;
      clock := now;
    }

    method HandleUpdated(p: DomainInfo, world: World)
      requires Valid() && node.faulty == world.faulty
      modifies this`domains, this`dormant, this`events, this`lastSync, node`present, node`sealed, node`domains, node`encoding
      ensures Valid() && old(events) <= events && AllNow(events, |old(events)|, clock)
      ensures Accounted(old(node.domains), old(node.present), node.domains, node.present, events, |old(events)|)
      ensures UpdateAnswered(p, world, clock, node.canUsid, old(Snap()), Snap())
    {
      ghost var a := Snap();
      hide *;
      HeldIs();
      if p.id in tombstones {
        NothingNew(node.domains, node.present, node.domains, node.present, events);
        NothingYet(events, clock);
        LateUpdate(p, world, clock, node.canUsid, a);
        return;
      }
      var ok, changed := ApplyDomain(p, false, world);
      HeldIs();
      ghost var mid := Snap();
      AppliedFrom(p, world, clock, node.canUsid, a, mid);
      ProgramsExtend(old(events), events);
      if ok && changed {
        ghost var before, recorded, present := events, node.domains, node.present;
        DoSyncState(world, true);
        AccountedJoin(old(node.domains), old(node.present), recorded, present, node.domains, node.present, before, events, |old(events)|);
        NowJoin(before, events, |old(events)|, clock);
      }
      UpdatedFrom(p, world, clock, node.canUsid, a, mid, Snap());
    }

    method HandleRoutes(id: DomainId, world: World)
      requires Valid() && node.faulty == world.faulty
      modifies this`domains, this`dormant, this`events, this`lastSync, node`present, node`sealed, node`domains, node`encoding
      ensures Valid() && old(events) <= events && AllNow(events, |old(events)|, clock)
      ensures Accounted(old(node.domains), old(node.present), node.domains, node.present, events, |old(events)|)
      ensures RoutesAnswered(id, world, clock, old(Snap()), Snap())
    {
      hide NeverRevived, SyncsSpaced, Past, DeletesRemembered, SyncRemembered, Accounted, SyncedAs;
      if id !in domains {
        SyncUnlessRecent(world);
        return;
      }
      NothingNew(node.domains, node.present, node.domains, node.present, events);
      if id in dormant {
        return;
      }
      ProgramStep(clock, tombstones, lastSync, events, id, domains[id].f);
      events := events + [Programmed(clock, id, domains[id].f)];
      AccountedLater(node.domains, node.present, node.domains, node.present, old(events), events, |old(events)|);
    }

    // Whatever was known of the domain goes, and its id is remembered.
    method HandleDeleted(id: DomainId, f: Option<nat>, ghost world: World)
      requires Valid() && node.faulty == world.faulty
      modifies this`domains, this`dormant, this`tombstones, this`events, node`present, node`sealed, node`domains
      ensures Valid() && DeleteAnswered(id, f, world, clock, old(Snap()), Snap())
    {
      ghost var a := Snap();
      ValidIs();
      BuryKeeps(clock, domains, dormant, tombstones, lastSync, events, id);
      BuryIs(tombstones, id, clock);
      hide *;
      HeldIs();
      tombstones := Bury(tombstones, id, clock);
      events := events + [Deleted(clock, id)];
      dormant := dormant - {id};
      var ok := node.DeleteDomain(Some(id), f);
      domains := domains - {id};
      ValidIs();
      HeldIs();
      DeletedFrom(id, f, world, clock, a, Snap());
    }

    lemma ValidIs()
      ensures Valid() <==> Remembers(clock, domains, dormant, tombstones, lastSync, events) && tombstones.Keys !! node.domains.Keys
    {
      hide Remembers;
    }

    // The first port of a dormant domain has the domain programmed.
    method HandlePort(network: NetworkId, world: World)
      requires Valid() && node.faulty == world.faulty
      modifies this`domains, this`dormant, this`events, this`lastSync, node`present, node`sealed, node`domains, node`encoding
      ensures Valid() && old(events) <= events && AllNow(events, |old(events)|, clock)
      ensures Accounted(old(node.domains), old(node.present), node.domains, node.present, events, |old(events)|)
      ensures PortAnswered(network, world, clock, old(Snap()), Snap())
    {
      ghost var a := Snap();
      hide *;
      var known, activate := GatewayPorts(network, world);
      ghost var mid, before, recorded, present := Snap(), events, node.domains, node.present;
      NothingNew(node.domains, node.present, node.domains, node.present, old(events));
      AccountedLater(node.domains, node.present, node.domains, node.present, old(events), events, |old(events)|);
      if activate {
        DoSyncState(world, true);
      } else if !known {
        SyncUnlessRecent(world);
      }
      PortFrom(network, world, clock, a, mid, Snap());
      if activate || !known {
        AccountedJoin(old(node.domains), old(node.present), recorded, present, node.domains, node.present, before, events, |old(events)|);
        NowJoin(before, events, |old(events)|, clock);
      }
    }

    // The gateway port of the network in every programmed domain that has it.
    method GatewayPorts(network: NetworkId, world: World) returns (known: bool, activate: bool)
      requires Valid()
      modifies this`events
      ensures Valid() && old(events) <= events && AllNow(events, |old(events)|, clock)
      ensures PortLogged(network, world, clock, old(Snap()), Snap())
      ensures known <==> exists id :: HasNetwork(old(Snap()).h, id, network)
      ensures activate <==> exists id :: id in old(Snap()).h.dormant && HasNetwork(old(Snap()).h, id, network)
    {
      hide NeverRevived, SyncsSpaced, Past, DeletesRemembered, SyncRemembered, ProgrammedSince, OnlyPrograms;
      known, activate := false, false;
      var todo := domains.Keys;
      ghost var h, n := Held(), |events|;
      NoPrograms(events);
      NoneSince(events);
      while todo != {}
        invariant Valid() && todo <= domains.Keys && AllNow(events, n, clock)
        invariant OnlyPrograms(old(events), events) && n <= |events|
        invariant forall id, f :: ProgrammedSince(events, n, id, f) <==>
                    network in world.bound && HasNetwork(h, id, network) && id !in h.dormant && id !in todo && f == domains[id].f
        invariant known <==> exists id :: id !in todo && HasNetwork(h, id, network)
        invariant activate <==> exists id :: id !in todo && id in h.dormant && HasNetwork(h, id, network)
      {
        var id: DomainId :| id in todo;
        todo := todo - {id};
        if network in domains[id].networks {
          known := true;
          assert HasNetwork(h, id, network);
          if id in dormant {
            activate := true;
          } else if network in world.bound {
            ghost var before := events;
            ProgramStep(clock, tombstones, lastSync, events, id, domains[id].f);
            events := events + [Programmed(clock, id, domains[id].f)];
            LoggedOne(old(events), before, events, n, clock, id, domains[id].f);
          }
        }
      }
      ProgramsExtend(old(events), events);
    }

    // One message, answered; whatever it newly records or leaves in the kernel
    // it logs as programmed.
    method Handle(m: Message, world: World, now: Time)
      requires Valid() && clock <= now
      modifies this, node
      ensures Valid() && clock == now && old(events) <= events && AllNow(events, |old(events)|, now)
      ensures Accounted(old(node.domains), old(node.present), node.domains, node.present, events, |old(events)|)
      ensures Answers(m, world, now, node.canUsid, old(Snap()), Snap())
    {
      ghost var a := Snap();
      hide *;
      node.faulty := world.faulty;
      FaultsAside();
      Tick(now);
      HeldIs();
      match m {
        case DomainUpdated(p) => HandleUpdated(p, world);
        case RoutesUpdated(id) => HandleRoutes(id, world);
        case DomainDeleted(id, f) =>
          HandleDeleted(id, f, world);
          HeldIs();
          DeletedParts(id, f, world, now, a, Snap());
          NothingNew(old(node.domains), old(node.present), node.domains, node.present, old(events));
          AccountedLater(old(node.domains), old(node.present), node.domains, node.present, old(events), events, |old(events)|);
          OneNow(old(events), events, now, id);
        case PortAppeared(network) => HandlePort(network, world);
        case ResyncTimer => DoSyncState(world, true);
      }
      AnswersAre(m, world, now, node.canUsid, a, Snap());
    }

    // What may fail is no part of what is remembered.
    twostate lemma FaultsAside()
      requires old(Valid()) && unchanged(this)
      requires node.domains == old(node.domains) && node.present == old(node.present) && node.encoding == old(node.encoding)
      ensures Valid() && Snap() == old(Snap())
    {
    }

    // Any interleaving of messages, port events and replies, however stale,
    // with any failures: each is answered in its turn, nothing deleted comes
    // back within the hour, and whatever is newly programmed is logged.
    method Run(messages: seq<(Message, World)>, times: seq<Time>) returns (ghost trail: seq<Snapshot>)
      requires Valid() && |times| == |messages|
      requires (times != [] ==> clock <= times[0]) && forall i | 0 < i < |times| :: times[i - 1] <= times[i]
      modifies this, node
      ensures Valid() && NeverRevived(events) && SyncsSpaced(events) && old(events) <= events
      ensures tombstones.Keys !! domains.Keys && tombstones.Keys !! node.domains.Keys
      ensures Accounted(old(node.domains), old(node.present), node.domains, node.present, events, |old(events)|)
      ensures AllAnswered(messages, times, node.canUsid, trail)
      ensures trail[0] == old(Snap()) && trail[|messages|] == Snap()
      ensures forall i | 0 <= i < |messages| && messages[i].0.DomainDeleted? ::
                DeletedAt(events, |old(events)|, times[i], messages[i].0.gone)
    {
      ghost var start := clock;
      NothingNew(node.domains, node.present, node.domains, node.present, events);
      trail := [Snap()];
      hide Accounted, DeletedAt, Remembers, Answers, AllAnswered, Held;
      NoneAnswered(messages, times, node.canUsid, trail);
      for i := 0 to |messages|
        invariant Valid() && clock == if i == 0 then start else times[i - 1]
        invariant old(events) <= events
        invariant Accounted(old(node.domains), old(node.present), node.domains, node.present, events, |old(events)|)
        invariant |trail| == i + 1 && trail[0] == old(Snap()) && trail[i] == Snap()
        invariant AllAnswered(messages[..i], times[..i], node.canUsid, trail)
        invariant forall j | 0 <= j < i && messages[j].0.DomainDeleted? ::
                    DeletedAt(events, |old(events)|, times[j], messages[j].0.gone)
      {
        assert i > 0 ==> times[i - 1] <= times[i];
        ghost var before, recorded, present := events, node.domains, node.present;
        Handle(messages[i].0, messages[i].1, times[i]);
        if messages[i].0.DomainDeleted? {
          DeleteIsLogged(messages[i].0, messages[i].1, times[i], node.canUsid, trail[i], Snap());
        }
        AnsweredOne(messages, times, node.canUsid, trail, Snap());
        trail := trail + [Snap()];
        AccountedJoin(old(node.domains), old(node.present), recorded, present, node.domains, node.present, before, events, |old(events)|);
        DeletedLater(before, events, |old(events)|);
        if messages[i].0.DomainDeleted? {
          DeletedNow(before, events, |old(events)|, times[i], messages[i].0.gone);
        }
      }
      RememberedParts(clock, domains, dormant, tombstones, lastSync, events);
      assert messages[..|messages|] == messages && times[..|times|] == times;
    }
  }
}
