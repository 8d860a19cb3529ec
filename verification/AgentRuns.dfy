// What the answers of an agent add up to over a run without failures.

module AgentRuns {
  import opened Wrappers
  import opened Payload
  import opened AgentMemory
  import opened AgentAnswers

  // ------------------------------------------------------------------
  // The payloads that count
  // ------------------------------------------------------------------
  ghost predicate Names(reply: seq<DomainInfo>, id: DomainId) {
    exists i :: 0 <= i < |reply| && reply[i].id == id
  }

  // p is the last payload of its domain.
  ghost predicate IsLatest(reply: seq<DomainInfo>, p: DomainInfo) {
    exists i :: 0 <= i < |reply| && reply[i] == p && forall j | i < j < |reply| :: reply[j].id != p.id
  }

  lemma NamesStep(reply: seq<DomainInfo>, n: nat, p: DomainInfo)
    requires |reply| == n + 1
    ensures forall id :: Names(reply, id) <==> Names(reply[..n], id) || id == reply[n].id
    ensures IsLatest(reply, p) <==> p == reply[n] || (IsLatest(reply[..n], p) && p.id != reply[n].id)
  {
    var front := reply[..n];
    assert forall i | 0 <= i < n :: front[i] == reply[i];
    forall id
      ensures Names(reply, id) <==> Names(front, id) || id == reply[n].id
    {
      if i :| 0 <= i < |reply| && reply[i].id == id && i != n {
        assert front[i].id == id;
      }
    }
    if IsLatest(front, p) && p.id != reply[n].id {
      var i :| 0 <= i < n && front[i] == p && forall j | i < j < n :: front[j].id != p.id;
      assert reply[i] == p && forall j | i < j < |reply| :: j < n ==> front[j].id != p.id;
    }
    if IsLatest(reply, p) && p != reply[n] {
      var i :| 0 <= i < |reply| && reply[i] == p && forall j | i < j < |reply| :: reply[j].id != p.id;
      assert front[i] == p;
    }
  }

  // Of the domains not deleted here, the latest payload.
  lemma {:induction false} WantedIsLatest(reply: seq<DomainInfo>, tombstones: map<DomainId, Time>, id: DomainId)
    ensures var wanted := WantedOf(reply, tombstones);
            && (id in wanted <==> id !in tombstones && Names(reply, id))
            && (id in wanted ==> wanted[id].id == id && IsLatest(reply, wanted[id]))
  {
    if reply != [] {
      var n := |reply| - 1;
      var before, after := WantedOf(reply[..n], tombstones), WantedOf(reply, tombstones);
      WantedIsLatest(reply[..n], tombstones, id);
      hide Names, IsLatest;
      NamesStep(reply, n, if id in after then after[id] else reply[n]);
    }
  }

  // ------------------------------------------------------------------
  // An update
  // ------------------------------------------------------------------
  // Known, recorded and there if it belongs here or was programmed already;
  // dormant if it has a network all the same; gone otherwise.
  ghost predicate Settled(p: DomainInfo, local: Option<set<NetworkId>>, h: Holding, h': Holding) {
    && (if p.networks == {} then Absent(h', p)
        else if Belongs(p, local) || StaysOn(h, p) then On(h', p)
        else Off(h', p))
    && (forall id | id != p.id :: SameOf(id, h, h'))
    && (forall f | f != p.f :: f in h'.present <==> f in h.present)
  }

  ghost predicate Absent(h: Holding, p: DomainInfo) {
    p.id !in h.domains && p.id !in h.dormant && p.id !in h.recorded && p.f !in h.present
  }

  ghost predicate On(h: Holding, p: DomainInfo) {
    && p.id in h.domains && h.domains[p.id] == p && p.id !in h.dormant
    && p.id in h.recorded && h.recorded[p.id] == p.f && p.f in h.present
  }

  ghost predicate Off(h: Holding, p: DomainInfo) {
    && p.id in h.domains && h.domains[p.id] == p && p.id in h.dormant
    && p.id !in h.recorded && p.f !in h.present
  }

  ghost predicate SameOf(id: DomainId, h: Holding, h': Holding) {
    && (id in h'.domains <==> id in h.domains) && (id in h.domains && id in h'.domains ==> h'.domains[id] == h.domains[id])
    && (id in h'.dormant <==> id in h.dormant)
    && (id in h'.recorded <==> id in h.recorded) && (id in h.recorded && id in h'.recorded ==> h'.recorded[id] == h.recorded[id])
  }

  lemma AppliedSettles(p: DomainInfo, world: World, now: Time, canUsid: bool, a: Snapshot, b: Snapshot)
    requires AppliedAs(p, world, now, canUsid, a, b) && !world.faulty
    requires Consistent(a.h) && (p.id in a.h.domains ==> a.h.domains[p.id].f == p.f)
    ensures Settled(p, world.local, a.h, b.h)
  {
    BelongsIs(p, world.local);
    hide Switches, Belongs, IsLocal;
    assert RecordRight(a.h, p);
  }

  // Where the update switches no encoding, that is all of it.
  lemma UpdateSettles(p: DomainInfo, world: World, now: Time, canUsid: bool, a: Snapshot, b: Snapshot)
    requires UpdateAnswered(p, world, now, canUsid, a, b) && !world.faulty && p.id !in a.tombstones
    requires Consistent(a.h) && (p.id in a.h.domains ==> a.h.domains[p.id].f == p.f)
    requires !Switches(p, a.encoding, canUsid)
    ensures Settled(p, world.local, a.h, b.h)
  {
    hide AppliedAs, Switches, SyncedAs, Consistent, Settled;
    AppliedSettles(p, world, now, canUsid, a, b);
  }

  // ------------------------------------------------------------------
  // A run without failures
  // ------------------------------------------------------------------
  // Every domain has a function id of its own, and keeps it.
  type FunctionIds = map<DomainId, nat>

  ghost predicate OneEach(fids: FunctionIds) {
    forall a, b | a in fids && b in fids && fids[a] == fids[b] :: a == b
  }

  predicate Keeps(fids: FunctionIds, id: DomainId, f: nat) {
    id in fids && fids[id] == f
  }

  ghost predicate Honest(fids: FunctionIds, m: Message, world: World) {
    && !world.faulty
    && (world.reply.Some? ==> forall i | 0 <= i < |world.reply.value| :: Keeps(fids, world.reply.value[i].id, world.reply.value[i].f))
    && (m.DomainUpdated? ==> Keeps(fids, m.domain.id, m.domain.f))
    && (m.DomainDeleted? && m.f.Some? ==> Keeps(fids, m.gone, m.f.value))
  }

  // Memory agrees with the kernel, and knows the domains by their ids.
  ghost predicate Tidy(fids: FunctionIds, h: Holding) {
    Consistent(h) && forall id | id in h.domains :: h.domains[id].id == id && Keeps(fids, id, h.domains[id].f)
  }

  lemma {:induction false} WantedKeeps(fids: FunctionIds, reply: seq<DomainInfo>, tombstones: map<DomainId, Time>)
    requires forall i | 0 <= i < |reply| :: Keeps(fids, reply[i].id, reply[i].f)
    ensures forall id | id in WantedOf(reply, tombstones) ::
              WantedOf(reply, tombstones)[id].id == id && Keeps(fids, id, WantedOf(reply, tombstones)[id].f)
  {
    if reply != [] {
      var n := |reply| - 1;
      assert forall i | 0 <= i < n :: reply[..n][i] == reply[i];
      WantedKeeps(fids, reply[..n], tombstones);
      assert Keeps(fids, reply[n].id, reply[n].f);
    }
  }

  // A sync that gets a reply ends converged.
  ghost predicate SyncConverges(world: World, a: Snapshot, b: Snapshot) {
    world.reply.Some? ==> Converged(WantedOf(world.reply.value, a.tombstones), world.local, b.h)
  }

  lemma SyncKeepsTidy(fids: FunctionIds, m: Message, world: World, now: Time, asked: bool, a: Snapshot, b: Snapshot)
    requires OneEach(fids) && Honest(fids, m, world) && Tidy(fids, a.h) && SyncedAs(world, now, asked, a, b)
    ensures Tidy(fids, b.h) && SyncConverges(world, a, b)
  {
    if world.reply.Some? {
      var wanted := WantedOf(world.reply.value, a.tombstones);
      WantedKeeps(fids, world.reply.value, a.tombstones);
      assert DistinctFids(wanted) && SameFids(a.h.domains, wanted);
      hide WantedOf, Applying, Repairable, RecordsRight, Swept, OnlyPrograms, Consistent, DistinctFids, SameFids, ActiveIds;
      assert Converged(wanted, world.local, b.h) && Consistent(b.h);
    }
  }

  lemma SettledIsTidy(fids: FunctionIds, p: DomainInfo, local: Option<set<NetworkId>>, h: Holding, h': Holding)
    requires OneEach(fids) && Keeps(fids, p.id, p.f) && Tidy(fids, h) && Settled(p, local, h, h')
    ensures Tidy(fids, h')
  {
    hide Belongs;
    forall id | id in h'.recorded
      ensures id in h'.domains && id !in h'.dormant && h'.recorded[id] == h'.domains[id].f
    {
      assert id != p.id ==> SameOf(id, h, h');
    }
    forall id | id in h'.dormant
      ensures id in h'.domains && h'.domains[id].f !in h'.present
    {
      assert id != p.id ==> SameOf(id, h, h');
    }
    forall id | id in h'.domains
      ensures h'.domains[id].id == id && Keeps(fids, id, h'.domains[id].f)
    {
      assert id != p.id ==> SameOf(id, h, h');
    }
  }

  lemma UpdateKeepsTidy(fids: FunctionIds, p: DomainInfo, world: World, now: Time, canUsid: bool, a: Snapshot, b: Snapshot)
    requires OneEach(fids) && Honest(fids, DomainUpdated(p), world) && Tidy(fids, a.h)
    requires UpdateAnswered(p, world, now, canUsid, a, b)
    ensures Tidy(fids, b.h)
  {
    hide AppliedAs, SyncedAs, Switches;
    if p.id !in a.tombstones {
      var mid :| AppliedAs(p, world, now, canUsid, a, mid)
              && if Switches(p, a.encoding, canUsid)
                 then SyncedAs(world, now, true, mid, b) || (world.faulty && b == mid)
                 else b == mid;
      AppliedSettles(p, world, now, canUsid, a, mid);
      hide Settled;
      SettledIsTidy(fids, p, world.local, a.h, mid.h);
      if SyncedAs(world, now, true, mid, b) {
        SyncKeepsTidy(fids, DomainUpdated(p), world, now, true, mid, b);
      }
    }
  }

  lemma DeleteKeepsTidy(fids: FunctionIds, id: DomainId, f: Option<nat>, world: World, now: Time, a: Snapshot, b: Snapshot)
    requires OneEach(fids) && Tidy(fids, a.h) && DeleteAnswered(id, f, world, now, a, b)
    ensures Tidy(fids, b.h)
  {
    hide ToRemove;
  }

  lemma SpacedKeepsTidy(fids: FunctionIds, m: Message, world: World, now: Time, a: Snapshot, b: Snapshot)
    requires OneEach(fids) && Honest(fids, m, world) && Tidy(fids, a.h) && SyncedUnlessRecent(world, now, a, b)
    ensures Tidy(fids, b.h)
  {
    hide SyncedAs, Tidy, Honest, OneEach;
    if !(a.lastSync.Some? && now - a.lastSync.value < SYNC_HOLDOFF) {
      SyncKeepsTidy(fids, m, world, now, false, a, b);
    }
  }

  lemma PortKeepsTidy(fids: FunctionIds, m: Message, n: NetworkId, world: World, now: Time, a: Snapshot, b: Snapshot)
    requires OneEach(fids) && Honest(fids, m, world) && Tidy(fids, a.h) && PortAnswered(n, world, now, a, b)
    ensures Tidy(fids, b.h)
  {
    hide SyncedAs, SyncedUnlessRecent, Tidy, Honest, OneEach, HasNetwork, ProgrammedSince, OnlyPrograms;
    var mid :| PortLogged(n, world, now, a, mid)
            && if exists id :: id in a.h.dormant && HasNetwork(a.h, id, n) then SyncedAs(world, now, true, mid, b)
               else if exists id :: HasNetwork(a.h, id, n) then b == mid
               else SyncedUnlessRecent(world, now, mid, b);
    assert mid.h == a.h;
    if SyncedAs(world, now, true, mid, b) {
      SyncKeepsTidy(fids, m, world, now, true, mid, b);
    } else if SyncedUnlessRecent(world, now, mid, b) {
      SpacedKeepsTidy(fids, m, world, now, mid, b);
    }
  }

  // Every answer keeps memory and kernel in agreement.
  lemma AnswerKeepsTidy(fids: FunctionIds, m: Message, world: World, now: Time, canUsid: bool, a: Snapshot, b: Snapshot)
    requires OneEach(fids) && Honest(fids, m, world) && Tidy(fids, a.h) && Answers(m, world, now, canUsid, a, b)
    ensures Tidy(fids, b.h)
    ensures m.ResyncTimer? ==> SyncConverges(world, a, b)
  {
    hide UpdateAnswered, DeleteAnswered, PortAnswered, SyncedAs, SyncedUnlessRecent, SyncConverges, Tidy, Honest, OneEach;
    match m {
      case DomainUpdated(p) => UpdateKeepsTidy(fids, p, world, now, canUsid, a, b);
      case DomainDeleted(id, f) => DeleteKeepsTidy(fids, id, f, world, now, a, b);
      case PortAppeared(n) => PortKeepsTidy(fids, m, n, world, now, a, b);
      case ResyncTimer => SyncKeepsTidy(fids, m, world, now, true, a, b);
      case RoutesUpdated(id) =>
        if id !in a.h.domains {
          SpacedKeepsTidy(fids, m, world, now, a, b);
        }
    }
  }

  // Over any run without failures, from an agreeing memory: it agrees at
  // every message, and every resync with a reply ends converged.
  lemma {:induction false} RunStaysTidy(fids: FunctionIds, messages: seq<(Message, World)>, times: seq<Time>, canUsid: bool,
                                        trail: seq<Snapshot>, n: nat)
    requires |times| == |messages| && n <= |messages| && AllAnswered(messages, times, canUsid, trail)
    requires OneEach(fids) && Tidy(fids, trail[0].h)
    requires forall i | 0 <= i < |messages| :: Honest(fids, messages[i].0, messages[i].1)
    ensures forall i | 0 <= i <= n :: Tidy(fids, trail[i].h)
    ensures forall i | 0 <= i < n && messages[i].0.ResyncTimer? :: SyncConverges(messages[i].1, trail[i], trail[i + 1])
  {
    hide Answers, SyncConverges, Tidy, Honest, OneEach;
    if n > 0 {
      RunStaysTidy(fids, messages, times, canUsid, trail, n - 1);
      AnswerKeepsTidy(fids, messages[n - 1].0, messages[n - 1].1, times[n - 1], canUsid, trail[n - 1], trail[n]);
    }
  }
}
