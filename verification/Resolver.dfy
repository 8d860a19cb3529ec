// Reading measured traffic back: from a destination address seen on a link
// to the host and the domain the packet is on its way to.

module Resolver {
  import opened Wrappers
  import opened Bits
  import opened Csid
  import opened Sid
  import opened Payload
  import opened Forwarding

  type InnerAddress = nat
  // A domain's addresses: whose port each is, and where it is bound.
  type Ports = map<InnerAddress, (PortId, Host)>

  datatype Target = Target(host: Host, domain: DomainId)
  datatype Tail = Tail(csids: seq<nat>, target: Target)

  datatype Resolution = Resolution(
    steered: bool,
    domain: Option<DomainId>,
    source: Option<(PortId, Host)>,
    destinationPort: Option<PortId>,
    destinationHost: Option<Host>)

  function Csids(a: Address): seq<nat> {
    match Decode(F3216, a)
    case Some(cs) => cs
    case None => []
  }

  // A longer sequence that ends with the tail.
  predicate EndsWith(csids: seq<nat>, tail: seq<nat>) {
    |csids| > |tail| && csids[|csids| - |tail|..] == tail
  }

  // Something is in front of the tail: one that stands alone is a decap SID or
  // nothing of ours.
  lemma EndsWithIs(csids: seq<nat>, tail: seq<nat>)
    ensures EndsWith(csids, tail) <==> exists front: seq<nat> :: front != [] && csids == front + tail
  {
    if EndsWith(csids, tail) {
      assert csids == csids[..|csids| - |tail|] + tail;
    }
  }

  function FirstMatch(tails: seq<Tail>, csids: seq<nat>): Option<Target> {
    if tails == [] then None
    else if EndsWith(csids, tails[0].csids) then Some(tails[0].target)
    else FirstMatch(tails[1..], csids)
  }

  // The host and domain a destination address names by itself.
  function Hit(decap: map<Address, Target>, tails: seq<Tail>, a: Address): Option<Target> {
    if a in decap then Some(decap[a]) else FirstMatch(tails, Csids(a))
  }

  // The domains that hold both inner addresses.
  ghost function Holding(domains: seq<(DomainId, nat)>, portsOf: DomainId -> Ports,
                         source: InnerAddress, destination: InnerAddress): seq<DomainId> {
    if domains == [] then []
    else
      var d, rest := domains[0].0, Holding(domains[1..], portsOf, source, destination);
      if source in portsOf(d) && destination in portsOf(d) then [d] + rest else rest
  }

  // The i-th domain holds both ends and no other does.
  ghost predicate OnlyHolder(domains: seq<(DomainId, nat)>, portsOf: DomainId -> Ports,
                             source: InnerAddress, destination: InnerAddress, i: nat) {
    && i < |domains| && HoldsBoth(portsOf(domains[i].0), source, destination)
    && forall j | 0 <= j < |domains| && j != i :: !HoldsBoth(portsOf(domains[j].0), source, destination)
  }

  predicate HoldsBoth(p: Ports, source: InnerAddress, destination: InnerAddress) {
    source in p && destination in p
  }

  // The domain decided on: the one the address names, or else the only one
  // that holds both ends; with none, or with several, no domain.
  ghost predicate Decides(hit: Option<Target>, domains: seq<(DomainId, nat)>, portsOf: DomainId -> Ports,
                          source: InnerAddress, destination: InnerAddress, domain: Option<DomainId>) {
    match hit
    case Some(t) => domain == Some(t.domain)
    case None =>
      && (forall i: nat | OnlyHolder(domains, portsOf, source, destination, i) :: domain == Some(domains[i].0))
      && ((forall i: nat :: !OnlyHolder(domains, portsOf, source, destination, i)) ==> domain.None?)
  }

  // What is read out of the domain's addresses.
  predicate ReadsOut(hit: Option<Target>, portsOf: DomainId -> Ports, source: InnerAddress, destination: InnerAddress,
                     out: Resolution) {
    match out.domain
    case None => out.source.None? && out.destinationPort.None? && out.destinationHost.None?
    case Some(d) =>
      var p := portsOf(d);
      && (if source in p then out.source == Some(p[source]) else out.source.None?)
      && (if destination in p then out.destinationPort == Some(p[destination].0) else out.destinationPort.None?)
      && out.destinationHost == (if hit.Some? then Some(hit.value.host)
                                 else if destination in p then Some(p[destination].1) else None)
  }

  lemma {:induction false} HoldingIs(domains: seq<(DomainId, nat)>, portsOf: DomainId -> Ports,
                                     source: InnerAddress, destination: InnerAddress)
    ensures var both := Holding(domains, portsOf, source, destination);
            && (both == [] <==> forall i | 0 <= i < |domains| :: !HoldsBoth(portsOf(domains[i].0), source, destination))
            && (forall i: nat | OnlyHolder(domains, portsOf, source, destination, i) :: both == [domains[i].0])
            && (|both| == 1 ==> exists i: nat :: OnlyHolder(domains, portsOf, source, destination, i))
  {
    if domains != [] {
      var rest := domains[1..];
      HoldingIs(rest, portsOf, source, destination);
      var both, more := Holding(domains, portsOf, source, destination), Holding(rest, portsOf, source, destination);
      assert forall i | 0 < i < |domains| :: domains[i] == rest[i - 1];
      if HoldsBoth(portsOf(domains[0].0), source, destination) {
        if |both| == 1 {
          assert OnlyHolder(domains, portsOf, source, destination, 0);
        }
      } else if |both| == 1 {
        var i: nat :| OnlyHolder(rest, portsOf, source, destination, i);
        assert OnlyHolder(domains, portsOf, source, destination, i + 1);
      }
      forall i: nat | OnlyHolder(domains, portsOf, source, destination, i)
        ensures both == [domains[i].0]
      {
        if i > 0 {
          assert OnlyHolder(rest, portsOf, source, destination, i - 1);
        }
      }
    }
  }

  // One (domain, host) pair of the tables, with its decap SID.
  ghost predicate IsDecapSid(domains: seq<(DomainId, nat)>, locators: map<Host, Prefix>, a: Address, t: Target) {
    exists i :: 0 <= i < |domains| && domains[i].0 == t.domain
                && t.host in locators && SidFor(locators[t.host], domains[i].1) == Some(a)
  }

  // The tables hold every (domain, host) decap SID and nothing else.
  ghost predicate Tables(domains: seq<(DomainId, nat)>, locators: map<Host, Prefix>, usid: bool,
                         decap: map<Address, Target>, tails: seq<Tail>) {
    && (forall a | a in decap :: IsDecapSid(domains, locators, a, decap[a]))
    && (forall i, h | 0 <= i < |domains| && h in locators :: Entered(domains[i], h, locators[h], usid, decap, tails))
    && (forall t | t in tails :: usid && exists a :: IsDecapSid(domains, locators, a, t.target)
                                                  && t.csids == Csids(a) && t.csids != [])
  }

  ghost predicate Entered(domain: (DomainId, nat), h: Host, locator: Prefix, usid: bool,
                          decap: map<Address, Target>, tails: seq<Tail>) {
    match SidFor(locator, domain.1)
    case None => true
    case Some(a) => a in decap && (usid && Csids(a) != [] ==> Tail(Csids(a), Target(h, domain.0)) in tails)
  }

  // The tables while the hosts in `todo` still have to be entered for `domain`.
  ghost predicate Entering(before: seq<(DomainId, nat)>, domain: (DomainId, nat), locators: map<Host, Prefix>,
                           usid: bool, todo: set<Host>, decap: map<Address, Target>, tails: seq<Tail>) {
    var all := before + [domain];
    && (forall a | a in decap :: IsDecapSid(all, locators, a, decap[a]))
    && (forall i, h | 0 <= i < |before| && h in locators :: Entered(before[i], h, locators[h], usid, decap, tails))
    && (forall h | h in locators && h !in todo :: Entered(domain, h, locators[h], usid, decap, tails))
    && (forall t | t in tails :: usid && exists a :: IsDecapSid(all, locators, a, t.target)
                                                  && t.csids == Csids(a) && t.csids != [])
  }

  lemma IsDecapSidWidens(before: seq<(DomainId, nat)>, domain: (DomainId, nat), locators: map<Host, Prefix>,
                         a: Address, t: Target)
    requires IsDecapSid(before, locators, a, t)
    ensures IsDecapSid(before + [domain], locators, a, t)
  {
    var i :| 0 <= i < |before| && before[i].0 == t.domain
          && t.host in locators && SidFor(locators[t.host], before[i].1) == Some(a);
    assert (before + [domain])[i] == before[i];
  }

  lemma EntryStarts(before: seq<(DomainId, nat)>, domain: (DomainId, nat), locators: map<Host, Prefix>,
                    usid: bool, decap: map<Address, Target>, tails: seq<Tail>)
    requires Tables(before, locators, usid, decap, tails)
    ensures Entering(before, domain, locators, usid, locators.Keys, decap, tails)
  {
    hide SidFor, Csids, IsDecapSid;
    forall a | a in decap
      ensures IsDecapSid(before + [domain], locators, a, decap[a])
    {
      IsDecapSidWidens(before, domain, locators, a, decap[a]);
    }
    forall t | t in tails
      ensures exists a :: IsDecapSid(before + [domain], locators, a, t.target) && t.csids == Csids(a) && t.csids != []
    {
      var a :| IsDecapSid(before, locators, a, t.target) && t.csids == Csids(a) && t.csids != [];
      IsDecapSidWidens(before, domain, locators, a, t.target);
    }
  }

  lemma EntryStep(before: seq<(DomainId, nat)>, domain: (DomainId, nat), locators: map<Host, Prefix>,
                  usid: bool, todo: set<Host>, decap: map<Address, Target>, tails: seq<Tail>, h: Host)
    requires Entering(before, domain, locators, usid, todo, decap, tails) && h in todo && h in locators
    ensures var sid := SidFor(locators[h], domain.1);
            if sid.None? then Entering(before, domain, locators, usid, todo - {h}, decap, tails)
            else
              var t := Target(h, domain.0);
              var tail := Csids(sid.value);
              var tails' := if usid && tail != [] then tails + [Tail(tail, t)] else tails;
              Entering(before, domain, locators, usid, todo - {h}, decap[sid.value := t], tails')
  {
    hide SidFor, Csids;
    var sid := SidFor(locators[h], domain.1);
    if sid.Some? {
      var all, t := before + [domain], Target(h, domain.0);
      assert all[|before|] == domain;
      assert IsDecapSid(all, locators, sid.value, t);
      hide IsDecapSid;
      var tail := Csids(sid.value);
      var tails' := if usid && tail != [] then tails + [Tail(tail, t)] else tails;
      forall x | x in tails'
        ensures usid && exists a :: IsDecapSid(all, locators, a, x.target) && x.csids == Csids(a) && x.csids != []
      {
        if x !in tails {
          assert x == Tail(tail, t);
        }
      }
    }
  }

  lemma EntryEnds(before: seq<(DomainId, nat)>, domain: (DomainId, nat), locators: map<Host, Prefix>,
                  usid: bool, decap: map<Address, Target>, tails: seq<Tail>)
    requires Entering(before, domain, locators, usid, {}, decap, tails)
    ensures Tables(before + [domain], locators, usid, decap, tails)
  {
    hide SidFor, Csids, IsDecapSid, Entered;
  }

  class Resolver {
    const domains: seq<(DomainId, nat)>
    const locators: map<Host, Prefix>
    const usid: bool
    const portsOf: DomainId -> Ports
    var decap: map<Address, Target>
    var tails: seq<Tail>
    // What portsOf answered, asked at most once a domain.
    var ports: map<DomainId, Ports>

    ghost predicate Valid()
      reads this
    {
      && Tables(domains, locators, usid, decap, tails)
      && forall d | d in ports :: ports[d] == portsOf(d)
    }

    constructor (domains: seq<(DomainId, nat)>, locators: map<Host, Prefix>, usid: bool, portsOf: DomainId -> Ports)
      ensures Valid()
      ensures this.domains == domains && this.locators == locators && this.usid == usid && this.portsOf == portsOf
    {
      this.domains, this.locators, this.usid, this.portsOf := domains, locators, usid, portsOf;
      decap, tails, ports := map[], [], map[];
      new;
      hide Csids, SidFor;
      for i := 0 to |domains|
        invariant Tables(domains[..i], locators, usid, decap, tails) && ports == map[]
      {
        AddDomain(domains[..i], domains[i]);
        assert domains[..i] + [domains[i]] == domains[..i + 1];
      }
      assert domains[..|domains|] == domains;
    }

    method AddDomain(ghost before: seq<(DomainId, nat)>, domain: (DomainId, nat))
      requires Tables(before, locators, usid, decap, tails)
      modifies this`decap, this`tails
      ensures Tables(before + [domain], locators, usid, decap, tails)
    {
      var todo := locators.Keys;
      EntryStarts(before, domain, locators, usid, decap, tails);
      hide *;
      while todo != {}
        invariant todo <= locators.Keys
        invariant Entering(before, domain, locators, usid, todo, decap, tails)
      {
        var h :| h in todo;
        var sid := SidFor(locators[h], domain.1);
        EntryStep(before, domain, locators, usid, todo, decap, tails, h);
        todo := todo - {h};
        if sid.Some? {
          decap := decap[sid.value := Target(h, domain.0)];
          var tail := Csids(sid.value);
          if usid && tail != [] {
            tails := tails + [Tail(tail, Target(h, domain.0))];
          }
        }
      }
      EntryEnds(before, domain, locators, usid, decap, tails);
    }

    method Addresses(domain: DomainId) returns (p: Ports)
      requires Valid()
      modifies this`ports
      ensures Valid() && p == portsOf(domain)
      ensures ports == old(ports)[domain := p]
    {
      if domain !in ports {
        ports := ports[domain := portsOf(domain)];
      }
      p := ports[domain];
    }

    method HoldingBoth(source: InnerAddress, destination: InnerAddress) returns (both: seq<DomainId>)
      requires Valid()
      modifies this`ports
      ensures Valid() && both == Holding(domains, portsOf, source, destination)
    {
      hide Tables;
      both := [];
      var i := |domains|;
      while i > 0
        invariant 0 <= i <= |domains| && Valid()
        invariant both == Holding(domains[i..], portsOf, source, destination)
      {
        i := i - 1;
        var p := Addresses(domains[i].0);
        assert domains[i..][1..] == domains[i + 1..];
        if source in p && destination in p {
          both := [domains[i].0] + both;
        }
      }
    }

    method Resolve(a: Address, source: InnerAddress, destination: InnerAddress) returns (out: Resolution)
      requires Valid()
      modifies this`ports
      ensures Valid()
      ensures out.steered == (a !in decap)
      ensures Decides(Hit(decap, tails, a), domains, portsOf, source, destination, out.domain)
      ensures ReadsOut(Hit(decap, tails, a), portsOf, source, destination, out)
    {
      hide Tables;
      HoldingIs(domains, portsOf, source, destination);
      var hit := if a in decap then Some(decap[a]) else FirstMatch(tails, Csids(a));
      var domain;
      if hit.Some? {
        domain := hit.value.domain;
      } else {
        var both := HoldingBoth(source, destination);
        if |both| != 1 {
          return Resolution(a !in decap, None, None, None, None);
        }
        domain := both[0];
      }
      var p := Addresses(domain);
      out := Resolution(a !in decap, Some(domain), Get(p, source), PortOf(Get(p, destination)),
                        if hit.Some? then Some(hit.value.host) else HostOf(Get(p, destination)));
    }
  }

  function Get(p: Ports, a: InnerAddress): Option<(PortId, Host)> {
    if a in p then Some(p[a]) else None
  }

  function PortOf(e: Option<(PortId, Host)>): Option<PortId> {
    if e.Some? then Some(e.value.0) else None
  }

  function HostOf(e: Option<(PortId, Host)>): Option<Host> {
    if e.Some? then Some(e.value.1) else None
  }

  // ------------------------------------------------------------------
  // The resolver undoes the encoder
  // ------------------------------------------------------------------
  // The registry the tables are made from: hosts of the network with their
  // own locators, all on one block, and one function id a domain.
  ghost predicate Registered(net: Network, domains: seq<(DomainId, nat)>, locators: map<Host, Prefix>) {
    && WellFormed(net) && F3216.Valid()
    && (forall h | h in locators :: h in net && net[h].locator == locators[h])
    && (forall h, g | h in locators && g in locators ::
          Block(F3216, locators[h].net) == Block(F3216, locators[g].net))
    && (forall i | 0 <= i < |domains| :: IsFunction(domains[i].1))
    && (forall i, j | 0 <= i < |domains| && 0 <= j < |domains| ::
          (domains[i].1 == domains[j].1 <==> domains[i].0 == domains[j].0))
  }

  // Two domains on three nodes.
  lemma DeploymentIsRegistered()
    ensures Registered(Deployment(), [(7, 0xe000), (8, 0xe001)], map h | h in Deployment() :: Deployment()[h].locator)
  {
    DeploymentIsWellFormed();
    Pow2Values();
    hide Bits.Pow2, WellFormed;
    forall h | h in Deployment()
      ensures Block(F3216, Deployment()[h].locator.net) == 0xfc00_0000 * Pow2(96)
    {
      assert Deployment()[h].locator.net == (0xfc00_0000_0000 + h) * P80;
    }
  }

  ghost predicate DecapPair(net: Network, h: Host, f: nat, cs: seq<nat>) {
    h in net && cs == [NodeId(net[h].locator), f]
  }

  // A table entry's SID reads as the pair (node, function) it is made of.
  lemma DecapSidReads(net: Network, domains: seq<(DomainId, nat)>, locators: map<Host, Prefix>, a: Address, t: Target)
    returns (i: nat)
    requires Registered(net, domains, locators) && IsDecapSid(domains, locators, a, t)
    ensures i < |domains| && domains[i].0 == t.domain && t.host in locators
    ensures a == FunctionSid(net[t.host], domains[i].1)
    ensures DecapPair(net, t.host, domains[i].1, Csids(a)) && Decode(F3216, a) == Some(Csids(a))
  {
    i :| 0 <= i < |domains| && domains[i].0 == t.domain
      && t.host in locators && SidFor(locators[t.host], domains[i].1) == Some(a);
    hide WellFormed, NodeId, Bits.Pow2, SidFor, Decode, Block, IsFunction;
    PairContainer(net, t.host, domains[i].1);
  }

  // Registered hosts with the same node C-SID are the same host.
  lemma NodeIdNames(net: Network, domains: seq<(DomainId, nat)>, locators: map<Host, Prefix>, h: Host, g: Host)
    requires Registered(net, domains, locators) && h in locators && g in locators
    requires NodeId(net[h].locator) == NodeId(net[g].locator)
    ensures h == g
  {
    hide NodeId, Bits.Pow2, Block;
    UsidLocatorValue(net[h].locator);
    UsidLocatorValue(net[g].locator);
  }

  // Whatever matches names the one target of its pair.
  lemma PairNamesTarget(net: Network, domains: seq<(DomainId, nat)>, locators: map<Host, Prefix>,
                        a: Address, t: Target, dst: Host, domain: (DomainId, nat))
    requires Registered(net, domains, locators) && IsDecapSid(domains, locators, a, t)
    requires dst in locators && domain in domains
    requires Csids(a) == [NodeId(net[dst].locator), domain.1]
    ensures t == Target(dst, domain.0)
  {
    hide WellFormed, NodeId, Block, Csids;
    var i := DecapSidReads(net, domains, locators, a, t);
    NodeIdNames(net, domains, locators, t.host, dst);
    var j :| 0 <= j < |domains| && domains[j] == domain;
    assert domains[i].1 == domains[j].1;
  }

  // The packet has reached its last segment: its address is the decap SID,
  // shown as direct and named exactly.
  lemma DecapSidHits(net: Network, domains: seq<(DomainId, nat)>, locators: map<Host, Prefix>,
                     decap: map<Address, Target>, tails: seq<Tail>, dst: Host, domain: (DomainId, nat))
    requires Registered(net, domains, locators) && Tables(domains, locators, true, decap, tails)
    requires dst in locators && domain in domains
    ensures var a := FunctionSid(net[dst], domain.1);
            a in decap && Hit(decap, tails, a) == Some(Target(dst, domain.0))
  {
    hide WellFormed, NodeId, Block, Csids, Bits.Pow2, Decode;
    var i :| 0 <= i < |domains| && domains[i] == domain;
    NodeOk(net, dst);
    LocalFunction(domain.1);
    FunctionSidValue(net[dst], domain.1);
    assert Entered(domains[i], dst, locators[dst], true, decap, tails);
    var a := FunctionSid(net[dst], domain.1);
    assert IsDecapSid(domains, locators, a, Target(dst, domain.0));
    var k := DecapSidReads(net, domains, locators, a, Target(dst, domain.0));
    assert domains[k].1 == domains[i].1;
    PairNamesTarget(net, domains, locators, a, decap[a], dst, domain);
  }

  lemma LocalFunction(f: nat)
    requires IsFunction(f)
    ensures f < 0x1_0000
  {
  }

  // A tail that matches names the true destination; so at most one target matches.
  lemma MatchIsTrue(net: Network, domains: seq<(DomainId, nat)>, locators: map<Host, Prefix>,
                    decap: map<Address, Target>, tails: seq<Tail>, t: Tail, cs: seq<nat>,
                    dst: Host, domain: (DomainId, nat))
    requires Registered(net, domains, locators) && Tables(domains, locators, true, decap, tails)
    requires dst in locators && domain in domains
    requires t in tails && EndsWith(cs, t.csids)
    requires EndsWithPair(cs, NodeId(net[dst].locator), domain.1)
    ensures t.target == Target(dst, domain.0)
  {
    hide Registered, NodeId, Csids;
    var a :| IsDecapSid(domains, locators, a, t.target) && t.csids == Csids(a);
    var i := DecapSidReads(net, domains, locators, a, t.target);
    PairNamesTarget(net, domains, locators, a, t.target, dst, domain);
  }

  // No tail matches a container that holds waypoints only.
  lemma WaypointsMatchNothing(net: Network, domains: seq<(DomainId, nat)>, locators: map<Host, Prefix>,
                              decap: map<Address, Target>, tails: seq<Tail>, t: Tail, cs: seq<nat>)
    requires Registered(net, domains, locators) && Tables(domains, locators, true, decap, tails)
    requires t in tails && WaypointsOnly(cs)
    ensures !EndsWith(cs, t.csids)
  {
    hide NodeId, Csids, WellFormed, Block;
    var a :| IsDecapSid(domains, locators, a, t.target) && t.csids == Csids(a);
    var i := DecapSidReads(net, domains, locators, a, t.target);
    assert t.csids[1] == domains[i].1 > USID_GIB_MAX;
    assert |cs| > 2 ==> cs[|cs| - 2..][1] == cs[|cs| - 1];
  }

  lemma {:induction false} FirstMatchOf(tails: seq<Tail>, cs: seq<nat>, t: Target)
    requires forall x | x in tails && EndsWith(cs, x.csids) :: x.target == t
    ensures FirstMatch(tails, cs) == if exists x :: x in tails && EndsWith(cs, x.csids) then Some(t) else None
  {
    if tails != [] {
      assert tails[0] in tails;
      assert forall x :: x in tails <==> x == tails[0] || x in tails[1..];
      FirstMatchOf(tails[1..], cs, t);
    }
  }

  // Every address a packed path shows before its last segment is steered
  // traffic. With the decap pair in the container it resolves to the
  // packet's destination host and domain; a container of waypoints only
  // resolves to nothing.
  lemma OnTheWayResolves(net: Network, domains: seq<(DomainId, nat)>, locators: map<Host, Prefix>,
                         decap: map<Address, Target>, tails: seq<Tail>, da: Address,
                         dst: Host, domain: (DomainId, nat))
    requires Registered(net, domains, locators) && Tables(domains, locators, true, decap, tails)
    requires dst in locators && domain in domains
    requires OnTheWay(da, NodeId(net[dst].locator), domain.1)
    ensures da !in decap
    ensures Hit(decap, tails, da) == if WaypointsOnly(Csids(da)) then None else Some(Target(dst, domain.0))
  {
    var cs :| Decode(F3216, da) == Some(cs) && cs != []
           && (WaypointsOnly(cs) || (|cs| > 2 && EndsWithPair(cs, NodeId(net[dst].locator), domain.1)));
    assert Csids(da) == cs;
    NotADecapSid(net, domains, locators, decap, tails, da, cs);
    hide *;
    if WaypointsOnly(cs) {
      WaypointsMiss(net, domains, locators, decap, tails, cs);
    } else {
      PairMatches(net, domains, locators, decap, tails, cs, dst, domain);
    }
    HitOfSteered(decap, tails, da);
  }

  lemma HitOfSteered(decap: map<Address, Target>, tails: seq<Tail>, da: Address)
    requires da !in decap
    ensures Hit(decap, tails, da) == FirstMatch(tails, Csids(da))
  {
    hide Csids;
  }

  lemma WaypointsMiss(net: Network, domains: seq<(DomainId, nat)>, locators: map<Host, Prefix>,
                      decap: map<Address, Target>, tails: seq<Tail>, cs: seq<nat>)
    requires Registered(net, domains, locators) && Tables(domains, locators, true, decap, tails)
    requires WaypointsOnly(cs)
    ensures FirstMatch(tails, cs) == None
  {
    hide *;
    forall x | x in tails
      ensures !EndsWith(cs, x.csids)
    {
      WaypointsMatchNothing(net, domains, locators, decap, tails, x, cs);
    }
    FirstMatchOf(tails, cs, Target(0, 0));
  }

  lemma PairMatches(net: Network, domains: seq<(DomainId, nat)>, locators: map<Host, Prefix>,
                    decap: map<Address, Target>, tails: seq<Tail>, cs: seq<nat>, dst: Host, domain: (DomainId, nat))
    requires Registered(net, domains, locators) && Tables(domains, locators, true, decap, tails)
    requires dst in locators && domain in domains && dst in net
    requires |cs| > 2 && EndsWithPair(cs, NodeId(net[dst].locator), domain.1)
    ensures FirstMatch(tails, cs) == Some(Target(dst, domain.0))
  {
    var x := PairIsInTails(net, domains, locators, decap, tails, dst, domain);
    assert EndsWith(cs, x.csids);
    hide *;
    forall y | y in tails && EndsWith(cs, y.csids)
      ensures y.target == Target(dst, domain.0)
    {
      MatchIsTrue(net, domains, locators, decap, tails, y, cs, dst, domain);
    }
    FirstMatchOf(tails, cs, Target(dst, domain.0));
  }

  lemma NotADecapSid(net: Network, domains: seq<(DomainId, nat)>, locators: map<Host, Prefix>,
                     decap: map<Address, Target>, tails: seq<Tail>, da: Address, cs: seq<nat>)
    requires Registered(net, domains, locators) && Tables(domains, locators, true, decap, tails)
    requires Decode(F3216, da) == Some(cs) && (WaypointsOnly(cs) || |cs| > 2)
    ensures da !in decap
  {
    if da in decap {
      EntryIsPair(net, domains, locators, decap, tails, da, cs);
    }
  }

  lemma EntryIsPair(net: Network, domains: seq<(DomainId, nat)>, locators: map<Host, Prefix>,
                    decap: map<Address, Target>, tails: seq<Tail>, da: Address, cs: seq<nat>)
    requires Registered(net, domains, locators) && Tables(domains, locators, true, decap, tails)
    requires F3216.Valid() && Decode(F3216, da) == Some(cs) && da in decap
    ensures |cs| == 2 && cs[1] > USID_GIB_MAX
  {
    var t := decap[da];
    assert IsDecapSid(domains, locators, da, t);
    var i := DecapSidReads(net, domains, locators, da, t);
    LocalNotGlobal(domains[i].1);
    hide Registered, Tables, IsDecapSid, NodeId, Decode;
  }

  lemma LocalNotGlobal(f: nat)
    requires IsFunction(f)
    ensures f > USID_GIB_MAX
  {
  }

  lemma PairIsInTails(net: Network, domains: seq<(DomainId, nat)>, locators: map<Host, Prefix>,
                      decap: map<Address, Target>, tails: seq<Tail>, dst: Host, domain: (DomainId, nat))
    returns (x: Tail)
    requires Registered(net, domains, locators) && Tables(domains, locators, true, decap, tails)
    requires dst in locators && domain in domains
    ensures x in tails && x.csids == [NodeId(net[dst].locator), domain.1]
  {
    hide WellFormed, NodeId, Block, Csids, Bits.Pow2, Decode;
    var i :| 0 <= i < |domains| && domains[i] == domain;
    NodeOk(net, dst);
    LocalFunction(domain.1);
    FunctionSidValue(net[dst], domain.1);
    var a := FunctionSid(net[dst], domain.1);
    assert Entered(domains[i], dst, locators[dst], true, decap, tails);
    assert IsDecapSid(domains, locators, a, Target(dst, domain.0));
    var k := DecapSidReads(net, domains, locators, a, Target(dst, domain.0));
    x := Tail(Csids(a), Target(dst, domain.0));
    assert domains[k].1 == domains[i].1;
  }

  // Every address of a whole journey, from the first waypoint to the decap.
  lemma JourneyResolves(net: Network, domains: seq<(DomainId, nat)>, locators: map<Host, Prefix>,
                        decap: map<Address, Target>, tails: seq<Tail>, ws: seq<Host>,
                        dst: Host, domain: (DomainId, nat))
    requires Registered(net, domains, locators) && Tables(domains, locators, true, decap, tails)
    requires dst in locators && domain in domains && domain.1 in net[dst].decaps
    requires forall i | 0 <= i < |ws| :: ws[i] in net
    ensures Encoded(Segments(net, ws, dst, domain.1), true) != []
    ensures var j := Run(net, EncapsRed(Encoded(Segments(net, ws, dst, domain.1), true)), |ws| + 1);
            && j.end.Delivered? && j.end.da in decap
            && Hit(decap, tails, j.end.da) == Some(Target(dst, domain.0))
            && forall i | 0 <= i < |j.visits| ::
                 var da := j.visits[i].da;
                 && da !in decap
                 && Hit(decap, tails, da) == if WaypointsOnly(Csids(da)) then None else Some(Target(dst, domain.0))
  {
    hide WellFormed, NodeId, Csids, Tables, Encoded, Segments, Run, OnTheWay, Hit, FunctionSid, Block;
    EncodedDelivers(net, ws, dst, domain.1);
    DecapSidHits(net, domains, locators, decap, tails, dst, domain);
    var j := Run(net, EncapsRed(Encoded(Segments(net, ws, dst, domain.1), true)), |ws| + 1);
    forall i | 0 <= i < |j.visits|
      ensures var da := j.visits[i].da;
              && da !in decap
              && Hit(decap, tails, da) == if WaypointsOnly(Csids(da)) then None else Some(Target(dst, domain.0))
    {
      OnTheWayResolves(net, domains, locators, decap, tails, j.visits[i].da, dst, domain);
    }
  }
}
