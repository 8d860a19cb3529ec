// The nodes a pushed segment list runs on, and what the list makes a packet do.

module Forwarding {
  import opened Wrappers
  import opened Bits
  import opened Csid
  import opened Sid
  import opened Payload

  const P64: nat := 0x1_0000_0000_0000_0000
  const P76: nat := 0x1000_0000_0000_0000_0000
  const P80: nat := 0x1_0000_0000_0000_0000_0000

  // A node: its locator and the domain functions it decapsulates for.
  datatype Node = Node(locator: Prefix, decaps: set<nat>)

  type Network = map<Host, Node>

  ghost function FunctionSid(n: Node, f: nat): Address {
    if SidFor(n.locator, f).Some? then SidFor(n.locator, f).value else 0
  }

  // ------------------------------------------------------------------
  // A node's SID routes in usid mode, longest prefix first
  // ------------------------------------------------------------------
  datatype Action =
    | End               // the node's End SID, /128
    | Decap(f: nat)     // End.DT46 of a domain, /64
    | Sealed            // the Local ID Block, unreachable, /52
    | NextCsid          // the node's uN, /48
    | Elsewhere

  ghost function Lookup(n: Node, da: Address): Action {
    var f := da / P64 % 0x1_0000;
    if da == FunctionSid(n, NODE_END_FUNCTION_ID) then End
    else if f in n.decaps && da / P64 == FunctionSid(n, f) / P64 then Decap(f)
    else if da / P76 == (n.locator.net + 0xe * P76) / P76 then Sealed
    else if da / P80 == n.locator.net / P80 then NextCsid
    else Elsewhere
  }

  // ------------------------------------------------------------------
  // Packets
  // ------------------------------------------------------------------
  // The segment routing header: its list is in reverse order of travel.
  datatype Srh = Srh(list: seq<Address>, left: nat)

  datatype Packet = Packet(da: Address, srh: Option<Srh>)

  function Reverse(s: seq<Address>): seq<Address> {
    seq(|s|, i requires 0 <= i < |s| => s[|s| - 1 - i])
  }

  // H.Encaps.Red: the first segment travels in the destination address only,
  // and a list of one needs no header.
  function EncapsRed(segments: seq<Address>): Packet
    requires segments != []
  {
    if |segments| == 1 then Packet(segments[0], None)
    else Packet(segments[0], Some(Srh(Reverse(segments[1..]), |segments| - 1)))
  }

  // End: take the next segment from the header; nothing left to take is an error.
  function EndStep(p: Packet): Option<Packet> {
    if p.srh.Some? && 0 < p.srh.value.left <= |p.srh.value.list| then
      var s := p.srh.value;
      Some(Packet(s.list[s.left - 1], Some(Srh(s.list, s.left - 1))))
    else None
  }

  // End with the NEXT-C-SID flavor: while the argument holds more C-SIDs,
  // shift them up over the active one; otherwise End.
  function NextCsidStep(p: Packet): Option<Packet> {
    var argument := p.da % P80;
    if argument != 0 then Some(p.(da := Block(F3216, p.da) + argument * 0x1_0000))
    else EndStep(p)
  }

  // ------------------------------------------------------------------
  // Running a packet
  // ------------------------------------------------------------------
  ghost predicate Owns(net: Network, h: Host, da: Address) {
    h in net && da / P80 == net[h].locator.net / P80
  }

  datatype Visit = Visit(host: Host, da: Address)

  datatype Outcome = Delivered(host: Host, f: nat, da: Address) | Lost

  // The nodes that processed the packet, the destination address each saw,
  // and where it came out.
  datatype Journey = Journey(visits: seq<Visit>, end: Outcome)

  ghost function Hosts(visits: seq<Visit>): seq<Host> {
    seq(|visits|, i requires 0 <= i < |visits| => visits[i].host)
  }

  ghost function Visited(h: Host, da: Address, j: Journey): Journey {
    Journey([Visit(h, da)] + j.visits, j.end)
  }

  // The underlay takes a packet to the node whose locator holds its
  // destination; that node looks the address up among its SIDs.
  ghost function Run(net: Network, p: Packet, steps: nat): Journey
    decreases steps, 1
  {
    if steps == 0 || !(exists h :: Owns(net, h, p.da)) then Journey([], Lost)
    else
      var h :| Owns(net, h, p.da);
      RunAt(net, h, p, steps)
  }

  ghost function RunAt(net: Network, h: Host, p: Packet, steps: nat): Journey
    requires steps > 0 && h in net
    decreases steps, 0
  {
    match Lookup(net[h], p.da)
    case Decap(f) =>
      if p.srh.Some? && p.srh.value.left > 0 then Journey([], Lost)
      else Journey([], Delivered(h, f, p.da))
    case End =>
      (match EndStep(p)
       case None => Journey([], Lost)
       case Some(q) => Visited(h, p.da, Run(net, q, steps - 1)))
    case NextCsid =>
      (match NextCsidStep(p)
       case None => Journey([], Lost)
       case Some(q) => Visited(h, p.da, Run(net, q, steps - 1)))
    case _ => Journey([], Lost)
  }

  // Node C-SIDs from the Global ID Block, functions from the Local ID
  // Block, one locator a node.
  ghost predicate WellFormed(net: Network) {
    && (forall h | h in net :: UsidLocator(net[h].locator))
    && (forall h | h in net :: FunctionsAreLocal(net[h]))
    && (forall h, g | h in net && g in net && h != g :: net[h].locator.net != net[g].locator.net)
  }

  // fc00:0:1::/48 to fc00:0:3::/48, each holding the first function of the
  // Local ID Block: the shape of an F3216 deployment.
  function Deployment(): Network {
    map[1 := Node(Prefix(0xfc00_0000_0001 * P80, 48), {0xe000}),
        2 := Node(Prefix(0xfc00_0000_0002 * P80, 48), {0xe000}),
        3 := Node(Prefix(0xfc00_0000_0003 * P80, 48), {0xe000})]
  }

  lemma DeploymentIsWellFormed()
    ensures WellFormed(Deployment())
  {
    hide *;
    DeploymentIs();
    LocatorOf(1);
    LocatorOf(2);
    LocatorOf(3);
    FunctionOf();
    WellFormedIf(Deployment());
  }

  lemma DeploymentIs()
    ensures Deployment().Keys == {1, 2, 3}
    ensures forall h | h in Deployment() :: Deployment()[h] == Node(Numbered(h), {0xe000})
  {
  }

  // fc00:0:<k>::/48.
  function Numbered(k: nat): Prefix {
    Prefix((0xfc00_0000_0000 + k) * P80, 48)
  }

  lemma LocatorOf(k: nat)
    requires 1 <= k < 0xe000
    ensures UsidLocator(Numbered(k)) && Numbered(k).net == (0xfc00_0000_0000 + k) * P80
  {
    var net := (0xfc00_0000_0000 + k) * P80;
    Bits.DivModUnique(net, 0xfc00_0000_0000 + k, P80, 0);
    Bits.DivModUnique(0xfc00_0000_0000 + k, 0xfc00_0000, 0x1_0000, k);
    Pow2Values();
    hide Bits.Pow2;
    UsidLocatorIf(Numbered(k), k);
  }

  lemma UsidLocatorIf(locator: Prefix, k: nat)
    requires locator.len == 48 && locator.net < Bits.Pow2(128) && Bits.Mod(locator.net, Bits.Pow2(80)) == 0
    requires 1 <= k < 0xe000 && locator.net / P80 % 0x1_0000 == k
    ensures UsidLocator(locator)
  {
    hide Bits.Pow2;
  }

  lemma FunctionOf()
    ensures IsFunction(0xe000)
  {
  }

  lemma WellFormedIf(net: Network)
    requires net.Keys == {1, 2, 3} && forall h | h in net :: net[h] == Node(Numbered(h), {0xe000})
    requires IsFunction(0xe000) && UsidLocator(Numbered(1)) && UsidLocator(Numbered(2)) && UsidLocator(Numbered(3))
    ensures WellFormed(net)
  {
    hide UsidLocator, IsFunction;
    forall h | h in net
      ensures UsidLocator(net[h].locator) && FunctionsAreLocal(net[h])
    {
    }
    hide FunctionsAreLocal;
  }

  // ------------------------------------------------------------------
  // One container at the node of its first C-SID
  // ------------------------------------------------------------------
  // The prefixes of an address <locator><c><low>.
  lemma AddressFields(net: nat, c: nat, low: nat)
    requires net % P80 == 0 && c < 0x1_0000 && low < P64
    ensures var da := net + c * P64 + low;
            && da / P80 == net / P80 && da % P80 == c * P64 + low
            && da / P76 == net / P76 + c / 0x1000
            && da / P64 == net / P64 + c && da / P64 % 0x1_0000 == c
    ensures (net + 0xe * P76) / P76 == net / P76 + 0xe
  {
    var x := net / P80;
    assert net == x * P80;
    assert net / P64 == x * 0x1_0000;
    assert net / P76 == x * 0x10;
  }

  // What a node does with an address of its own, by the field behind its locator.
  lemma LookupByField(n: Node, c: nat, low: nat)
    requires UsidLocator(n.locator) && c < 0x1_0000 && low < P64
    requires FunctionsAreLocal(n)
    ensures var a := Lookup(n, n.locator.net + c * P64 + low);
            && (c <= USID_GIB_MAX ==> a == NextCsid)
            && (c in n.decaps ==> a == Decap(c))
            && (c !in n.decaps && IsFunction(c) ==> a == Sealed)
            && (c == NODE_END_FUNCTION_ID && low == 0 ==> a == End)
  {
    hide Bits.Pow2, Bits.BitOr, FunctionSid, NodeId, Block, SidFor;
    UsidLocatorValue(n.locator);
    FunctionSidValue(n, NODE_END_FUNCTION_ID);
    FunctionSidValue(n, c);
    AddressFields(n.locator.net, c, low);
    AddressFields(n.locator.net, c, 0);
    assert (n.locator.net + c * P64 + low == n.locator.net + NODE_END_FUNCTION_ID * P64) ==> c == NODE_END_FUNCTION_ID;
  }

  lemma PlaceTop(rest: seq<nat>) returns (low: nat)
    requires 0 < |rest| <= 5 && F3216.Valid() && AreCsids(F3216, rest)
    ensures low < P64 && Place(F3216, 5, rest) == rest[0] * P64 + low && 0 < rest[0] < 0x1_0000
    ensures |rest| == 1 ==> low == 0
  {
    Pow2Values();
    hide Bits.Pow2;
    assert Unit(F3216, 4) == P64;
    PlaceBound(F3216, 4, rest[1..]);
    low := Place(F3216, 4, rest[1..]);
  }

  lemma {:induction false} PlaceShift(cs: seq<nat>, n: nat)
    requires F3216.Valid() && |cs| <= n
    ensures Place(F3216, n + 1, cs) == Place(F3216, n, cs) * 0x1_0000
  {
    hide Bits.Pow2;
    Pow2Values();
    if cs != [] {
      PlaceShift(cs[1..], n - 1);
      UnitStep(F3216, n - 1);
      var u := Unit(F3216, n - 1);
      assert cs[0] * (u * 0x1_0000) == (cs[0] * u) * 0x1_0000;
    }
  }

  lemma F3216Units()
    ensures F3216.Valid() && F3216.Per() == 6 && Unit(F3216, 5) == P80 && Unit(F3216, 4) == P64
  {
    Pow2Values();
    hide Bits.Pow2;
  }

  lemma CsidsBelow(rest: seq<nat>)
    requires F3216.Valid() && |rest| <= 5 && AreCsids(F3216, rest)
    ensures Place(F3216, 5, rest) < Unit(F3216, 5)
  {
    hide Bits.Pow2, Unit;
    PlaceBound(F3216, 5, rest);
  }

  lemma PlaceCons(c: nat, rest: seq<nat>)
    requires F3216.Valid() && |rest| <= 5
    ensures Place(F3216, 6, [c] + rest) == c * Unit(F3216, 5) + Place(F3216, 5, rest)
  {
    assert ([c] + rest)[1..] == rest;
  }

  // A container that begins with the node C-SID of l, as the address it is.
  lemma ContainerValue(l: Prefix, rest: seq<nat>)
    requires UsidLocator(l) && |rest| <= 5 && AreCsids(F3216, rest)
    ensures F3216.Valid() && F3216.Per() == 6
    ensures Container(F3216, Block(F3216, l.net), [NodeId(l)] + rest) == l.net + Place(F3216, 5, rest)
    ensures Place(F3216, 5, rest) < P80 && l.net % P80 == 0
  {
    hide Bits.Pow2, UsidLocator, Block, NodeId, Place, Unit, AreCsids;
    UsidLocatorValue(l);
    F3216Units();
    CsidsBelow(rest);
    PlaceCons(NodeId(l), rest);
  }

  // Shifting the argument up over the active C-SID leaves the container of the rest.
  lemma ShiftedContainer(l: Prefix, rest: seq<nat>)
    requires UsidLocator(l) && |rest| <= 5 && AreCsids(F3216, rest)
    ensures F3216.Valid() && F3216.Per() == 6
    ensures var da := l.net + Place(F3216, 5, rest);
            Block(F3216, da) + da % P80 * 0x1_0000 == Container(F3216, Block(F3216, l.net), rest)
  {
    hide Bits.Pow2, UsidLocator, NodeId, Place, Block, AreCsids;
    ContainerValue(l, rest);
    PlaceShift(rest, 5);
    SameBlock(l.net, Place(F3216, 5, rest));
  }

  lemma SameBlock(net: nat, low: nat)
    requires net % P80 == 0 && low < P80
    ensures F3216.Valid() && Block(F3216, net + low) == Block(F3216, net) && (net + low) % P80 == low
  {
    Pow2Values();
    hide Bits.Pow2;
    var x := net / P80;
    assert net == x * P80;
  }

  lemma FunctionSidValue(n: Node, f: nat)
    requires UsidLocator(n.locator) && f < 0x1_0000
    ensures SidFor(n.locator, f).Some? && FunctionSid(n, f) == n.locator.net + f * P64
  {
    Pow2Values();
    hide Bits.Pow2, Bits.BitOr;
    SidForValue(n.locator, f);
  }

  lemma OwnerIs(net: Network, h: Host, g: Host, da: Address)
    requires WellFormed(net) && Owns(net, h, da) && Owns(net, g, da)
    ensures h == g
  {
    Pow2Values();
    hide Bits.Pow2;
    UsidLocatorValue(net[h].locator);
    UsidLocatorValue(net[g].locator);
  }

  ghost predicate FunctionsAreLocal(n: Node) {
    forall f | f in n.decaps :: IsFunction(f)
  }

  // A node C-SID with another node C-SID behind it: shift.
  lemma ShiftsPast(n: Node, rest: seq<nat>)
    requires UsidLocator(n.locator) && 0 < |rest| <= 5 && AreCsids(F3216, rest)
    requires rest[0] <= USID_GIB_MAX && FunctionsAreLocal(n)
    ensures F3216.Valid() && F3216.Per() == 6
    ensures var da := Container(F3216, Block(F3216, n.locator.net), [NodeId(n.locator)] + rest);
            && Lookup(n, da) == NextCsid && da / P80 == n.locator.net / P80 && da % P80 != 0
            && Block(F3216, da) + da % P80 * 0x1_0000
               == Container(F3216, Block(F3216, n.locator.net), rest)
  {
    hide *;
    ContainerValue(n.locator, rest);
    ShiftedContainer(n.locator, rest);
    var low := PlaceTop(rest);
    LookupByField(n, rest[0], low);
    AddressFields(n.locator.net, rest[0], low);
  }

  lemma NothingPlaced()
    ensures F3216.Valid() && AreCsids(F3216, []) && Place(F3216, 5, []) == 0 && 0 < P64
  {
  }

  // A node C-SID alone: End.
  lemma EndsAt(n: Node)
    requires UsidLocator(n.locator) && FunctionsAreLocal(n)
    ensures F3216.Valid() && F3216.Per() == 6
    ensures var da := Container(F3216, Block(F3216, n.locator.net), [NodeId(n.locator)]);
            Lookup(n, da) == NextCsid && da / P80 == n.locator.net / P80 && da % P80 == 0
            && da == n.locator.net
  {
    hide *;
    NothingPlaced();
    assert [NodeId(n.locator)] + [] == [NodeId(n.locator)];
    ContainerValue(n.locator, []);
    LookupByField(n, 0, 0);
    AddressFields(n.locator.net, 0, 0);
  }

  ghost predicate IsFunction(f: nat) {
    MIN_DOMAIN_FUNCTION_ID <= f <= MAX_DOMAIN_FUNCTION_ID
  }

  lemma FunctionIsCsid(f: nat)
    requires IsFunction(f)
    ensures F3216.Valid() && AreCsids(F3216, [f]) && f < 0x1_0000
  {
    Pow2Values();
    hide Bits.Pow2;
  }

  // The decap pair: End.DT46 for a function the node holds; any other
  // function runs into the seal, and is not read as the next node.
  lemma DecapsAt(n: Node, f: nat)
    requires UsidLocator(n.locator) && FunctionsAreLocal(n) && IsFunction(f)
    ensures F3216.Valid() && F3216.Per() == 6
    ensures var da := Container(F3216, Block(F3216, n.locator.net), [NodeId(n.locator), f]);
            Lookup(n, da) == (if f in n.decaps then Decap(f) else Sealed)
            && da / P80 == n.locator.net / P80 && da == FunctionSid(n, f)
  {
    hide *;
    FunctionIsCsid(f);
    assert [NodeId(n.locator)] + [f] == [NodeId(n.locator), f];
    ContainerValue(n.locator, [f]);
    var low := PlaceTop([f]);
    LookupByField(n, f, low);
    AddressFields(n.locator.net, f, low);
    FunctionSidValue(n, f);
  }

  // ------------------------------------------------------------------
  // A list of containers on its way
  // ------------------------------------------------------------------
  // The addresses End still has to take from the header, next one first.
  ghost function Upcoming(p: Packet): seq<Address> {
    if p.srh.Some? && p.srh.value.left <= |p.srh.value.list| then
      var s := p.srh.value;
      seq(s.left, i requires 0 <= i < s.left => s.list[s.left - 1 - i])
    else []
  }

  lemma EndTakesNext(p: Packet)
    requires Upcoming(p) != []
    ensures EndStep(p).Some?
    ensures EndStep(p).value.da == Upcoming(p)[0] && Upcoming(EndStep(p).value) == Upcoming(p)[1..]
  {
  }

  ghost function Addresses(blocks: seq<nat>, parts: seq<seq<seq<nat>>>): seq<Address>
    requires |blocks| == |parts| && F3216.Valid()
    requires forall i | 0 <= i < |parts| :: |Flatten(parts[i])| <= F3216.Per()
  {
    seq(|parts|, i requires 0 <= i < |parts| => Container(F3216, blocks[i], Flatten(parts[i])))
  }

  // The containers `parts`, each on its own block, carry the waypoints ws in
  // order and then the decap pair of (dst, f).
  ghost predicate Carry(net: Network, ws: seq<Host>, dst: Host, f: nat,
                        blocks: seq<nat>, parts: seq<seq<seq<nat>>>)
    requires dst in net && forall i | 0 <= i < |ws| :: ws[i] in net
    decreases |ws|
  {
    && |blocks| == |parts| > 0 && parts[0] != []
    && (forall i | 0 <= i < |parts| :: |Flatten(parts[i])| <= 6)
    && if ws == [] then
         |parts| == 1 && parts[0] == [[NodeId(net[dst].locator), f]] && blocks[0] == Block(F3216, net[dst].locator.net)
       else
         && parts[0][0] == [NodeId(net[ws[0]].locator)] && blocks[0] == Block(F3216, net[ws[0]].locator.net)
         && Carry(net, ws[1..], dst, f, NextBlocks(blocks, parts), NextParts(parts))
  }

  // What is left of the containers once their first SID is used up.
  ghost function NextParts(parts: seq<seq<seq<nat>>>): seq<seq<seq<nat>>>
    requires parts != [] && parts[0] != []
  {
    if |parts[0]| == 1 then parts[1..] else [parts[0][1..]] + parts[1..]
  }

  ghost function NextBlocks(blocks: seq<nat>, parts: seq<seq<seq<nat>>>): seq<nat>
    requires |blocks| == |parts| > 0
  {
    if |parts[0]| == 1 then blocks[1..] else blocks
  }

  lemma CarryStep(net: Network, ws: seq<Host>, dst: Host, f: nat, blocks: seq<nat>, parts: seq<seq<seq<nat>>>)
    requires ws != [] && dst in net && forall i | 0 <= i < |ws| :: ws[i] in net
    requires Carry(net, ws, dst, f, blocks, parts)
    ensures var d := NodeId(net[ws[0]].locator);
            if |parts[0]| == 1 then Flatten(parts[0]) == [d]
            else NextParts(parts) != [] && Flatten(parts[0]) == [d] + Flatten(NextParts(parts)[0])
    ensures |Flatten(parts[0])| <= 6
  {
    var p := parts[0];
    assert Flatten(p) == p[0] + Flatten(p[1..]);
    if |p| == 1 {
      assert Flatten(p[1..]) == [];
    } else {
      assert NextParts(parts)[0] == p[1..];
    }
  }

  ghost predicate WaypointsOnly(cs: seq<nat>) {
    forall i | 0 <= i < |cs| :: cs[i] <= USID_GIB_MAX
  }

  // Waypoints in front of the decap pair of (d, f).
  ghost predicate EndsWithPair(cs: seq<nat>, d: nat, f: nat) {
    |cs| >= 2 && cs[|cs| - 2..] == [d, f]
  }

  // What a destination address on the way to (d, f) holds.
  ghost predicate OnTheWay(da: Address, d: nat, f: nat) {
    && F3216.Valid()
    && exists cs :: Decode(F3216, da) == Some(cs) && cs != []
                 && (WaypointsOnly(cs) || (|cs| > 2 && EndsWithPair(cs, d, f)))
  }

  // The C-SIDs of a container on the way to (d, f), active one first.
  ghost predicate GoodHead(cs: seq<nat>, d: nat, f: nat) {
    && F3216.Valid() && AreCsids(F3216, cs)
    && cs != [] && cs[0] <= USID_GIB_MAX
    && (WaypointsOnly(cs) || EndsWithPair(cs, d, f))
  }

  lemma PairIsGoodHead(n: Node, f: nat)
    requires UsidLocator(n.locator) && IsFunction(f)
    ensures GoodHead([NodeId(n.locator), f], NodeId(n.locator), f)
  {
    Pow2Values();
    hide Bits.Pow2;
  }

  lemma WaypointIsGoodHead(n: Node, d: nat, f: nat)
    requires UsidLocator(n.locator)
    ensures GoodHead([NodeId(n.locator)], d, f)
  {
    Pow2Values();
    hide Bits.Pow2;
  }

  lemma GoodHeadCons(n: Node, rest: seq<nat>, d: nat, f: nat)
    requires UsidLocator(n.locator) && GoodHead(rest, d, f)
    ensures GoodHead([NodeId(n.locator)] + rest, d, f)
  {
    NodeIsCsid(n);
    hide Bits.Pow2, UsidLocator, NodeId;
    var c := NodeId(n.locator);
    var cs := [c] + rest;
    CsidsCons(c, rest);
    if EndsWithPair(rest, d, f) {
      assert cs[|cs| - 2..] == rest[|rest| - 2..];
    } else {
      WaypointsCons(c, rest);
    }
  }

  lemma CsidsCons(c: nat, rest: seq<nat>)
    requires F3216.Valid() && AreCsids(F3216, [c]) && AreCsids(F3216, rest)
    ensures AreCsids(F3216, [c] + rest)
  {
    hide Bits.Pow2;
    assert [c][0] == c;
  }

  lemma WaypointsCons(c: nat, rest: seq<nat>)
    requires c <= USID_GIB_MAX && WaypointsOnly(rest)
    ensures WaypointsOnly([c] + rest)
  {
  }

  lemma {:induction false} CarriedFields(net: Network, ws: seq<Host>, dst: Host, f: nat,
                                         blocks: seq<nat>, parts: seq<seq<seq<nat>>>)
    requires WellFormed(net) && dst in net && IsFunction(f)
    requires forall i | 0 <= i < |ws| :: ws[i] in net
    requires Carry(net, ws, dst, f, blocks, parts)
    ensures GoodHead(Flatten(parts[0]), NodeId(net[dst].locator), f)
    ensures ws != [] && !WaypointsOnly(Flatten(parts[0])) ==> |Flatten(parts[0])| > 2
    decreases |ws|
  {
    hide WellFormed, GoodHead, NodeId, FunctionsAreLocal, UsidLocator;
    NodeOk(net, dst);
    if ws == [] {
      FlattenSingle([NodeId(net[dst].locator), f]);
      PairIsGoodHead(net[dst], f);
    } else {
      NodeOk(net, ws[0]);
      CarryStep(net, ws, dst, f, blocks, parts);
      if |parts[0]| == 1 {
        WaypointIsGoodHead(net[ws[0]], NodeId(net[dst].locator), f);
        SingleIsWaypoint(net[ws[0]]);
      } else {
        CarriedFields(net, ws[1..], dst, f, NextBlocks(blocks, parts), NextParts(parts));
        hide Carry, Flatten;
        var rest := Flatten(NextParts(parts)[0]);
        GoodHeadCons(net[ws[0]], rest, NodeId(net[dst].locator), f);
        LongerThanPair(net[ws[0]], rest, NodeId(net[dst].locator), f);
      }
    }
  }

  lemma SingleIsWaypoint(n: Node)
    requires UsidLocator(n.locator)
    ensures WaypointsOnly([NodeId(n.locator)])
  {
  }

  lemma LongerThanPair(n: Node, rest: seq<nat>, d: nat, f: nat)
    requires UsidLocator(n.locator) && GoodHead(rest, d, f)
    ensures WaypointsOnly([NodeId(n.locator)] + rest) || |[NodeId(n.locator)] + rest| > 2
  {
  }

  lemma NodeIsCsid(n: Node)
    requires UsidLocator(n.locator)
    ensures F3216.Valid() && F3216.Per() == 6
    ensures AreCsids(F3216, [NodeId(n.locator)]) && NodeId(n.locator) <= USID_GIB_MAX
  {
    Pow2Values();
    hide Bits.Pow2;
  }

  // One processing step: at its waypoint the packet is shifted, or takes
  // its next container.
  lemma WaypointStep(net: Network, ws: seq<Host>, dst: Host, f: nat,
                     blocks: seq<nat>, parts: seq<seq<seq<nat>>>, p: Packet) returns (q: Packet)
    requires WellFormed(net) && dst in net && IsFunction(f)
    requires ws != [] && forall i | 0 <= i < |ws| :: ws[i] in net
    requires Carry(net, ws, dst, f, blocks, parts)
    requires Travels(p, blocks, parts)
    ensures Owns(net, ws[0], p.da) && Lookup(net[ws[0]], p.da) == NextCsid
    ensures NextCsidStep(p) == Some(q)
    ensures Carry(net, ws[1..], dst, f, NextBlocks(blocks, parts), NextParts(parts))
    ensures Travels(q, NextBlocks(blocks, parts), NextParts(parts))
    ensures OnTheWay(p.da, NodeId(net[dst].locator), f)
  {
    hide *;
    NodeOk(net, ws[0]);
    CarriedFields(net, ws, dst, f, blocks, parts);
    CarryStep(net, ws, dst, f, blocks, parts);
    CarryNext(net, ws, dst, f, blocks, parts);
    var d := NodeId(net[dst].locator);
    if |parts[0]| == 1 {
      q := EndAtWaypoint(net[ws[0]], d, f, blocks, parts, p);
    } else {
      CarriedFields(net, ws[1..], dst, f, NextBlocks(blocks, parts), NextParts(parts));
      q := ShiftAtWaypoint(net[ws[0]], d, f, blocks, parts, p);
    }
    OwnsIt(net, ws[0], p.da);
  }

  lemma CarryNext(net: Network, ws: seq<Host>, dst: Host, f: nat, blocks: seq<nat>, parts: seq<seq<seq<nat>>>)
    requires ws != [] && dst in net && (forall i | 0 <= i < |ws| :: ws[i] in net) && Carry(net, ws, dst, f, blocks, parts)
    ensures |blocks| == |parts| > 0 && parts[0] != [] && (|parts[0]| == 1 ==> |parts| > 1)
    ensures Carry(net, ws[1..], dst, f, NextBlocks(blocks, parts), NextParts(parts))
    ensures blocks[0] == Block(F3216, net[ws[0]].locator.net)
  {
    hide Block, NodeId, Flatten;
  }

  lemma OwnsIt(net: Network, h: Host, da: Address)
    requires h in net && da / P80 == net[h].locator.net / P80
    ensures Owns(net, h, da)
  {
  }

  // The packet's own address and those still in its header are the containers.
  ghost predicate Travels(p: Packet, blocks: seq<nat>, parts: seq<seq<seq<nat>>>) {
    && F3216.Valid() && |blocks| == |parts|
    && (forall i | 0 <= i < |parts| :: |Flatten(parts[i])| <= F3216.Per())
    && [p.da] + Upcoming(p) == Addresses(blocks, parts)
    && (p.srh.Some? ==> p.srh.value.left <= |p.srh.value.list|)
  }

  lemma EndAtWaypoint(w: Node, d: nat, f: nat, blocks: seq<nat>, parts: seq<seq<seq<nat>>>, p: Packet)
    returns (q: Packet)
    requires UsidLocator(w.locator) && FunctionsAreLocal(w) && Travels(p, blocks, parts)
    requires |parts| > 1 && |parts[0]| == 1 && blocks[0] == Block(F3216, w.locator.net)
    requires Flatten(parts[0]) == [NodeId(w.locator)] && GoodHead(Flatten(parts[0]), d, f)
    ensures p.da / P80 == w.locator.net / P80 && Lookup(w, p.da) == NextCsid
    ensures NextCsidStep(p) == Some(q) && Travels(q, NextBlocks(blocks, parts), NextParts(parts))
    ensures OnTheWay(p.da, d, f)
  {
    hide GoodHead, Bits.Pow2, Lookup, Block, NodeId, UsidLocator, Place, Flatten, FunctionsAreLocal, OnTheWay;
    assert p.da == Addresses(blocks, parts)[0] == Container(F3216, blocks[0], Flatten(parts[0]));
    OnTheWayOf(w, Flatten(parts[0]), d, f) by { SingleIsWaypoint(w); }
    EndsAt(w);
    AddressesTail(blocks, parts);
    q := TakeNext(p, Addresses(blocks, parts));
  }

  lemma ShiftAtWaypoint(w: Node, d: nat, f: nat, blocks: seq<nat>, parts: seq<seq<seq<nat>>>, p: Packet)
    returns (q: Packet)
    requires UsidLocator(w.locator) && FunctionsAreLocal(w) && Travels(p, blocks, parts)
    requires parts != [] && |parts[0]| > 1 && blocks[0] == Block(F3216, w.locator.net)
    requires var rest := Flatten(NextParts(parts)[0]);
             Flatten(parts[0]) == [NodeId(w.locator)] + rest && GoodHead(rest, d, f) && |rest| <= 5
    requires GoodHead(Flatten(parts[0]), d, f)
    requires WaypointsOnly(Flatten(parts[0])) || |Flatten(parts[0])| > 2
    ensures p.da / P80 == w.locator.net / P80 && Lookup(w, p.da) == NextCsid
    ensures NextCsidStep(p) == Some(q) && Travels(q, NextBlocks(blocks, parts), NextParts(parts))
    ensures OnTheWay(p.da, d, f)
  {
    hide GoodHead, Bits.Pow2, Lookup, Block, NodeId, UsidLocator, Place, Flatten, FunctionsAreLocal, OnTheWay, WaypointsOnly;
    assert p.da == Addresses(blocks, parts)[0] == Container(F3216, blocks[0], Flatten(parts[0]));
    OnTheWayOf(w, Flatten(parts[0]), d, f);
    ShiftHead(w, Flatten(NextParts(parts)[0]), d, f);
    q := NextCsidStep(p).value;
    assert Upcoming(q) == Upcoming(p);
    assert Addresses(blocks, parts)[1..] == Addresses(blocks, NextParts(parts))[1..];
  }

  lemma TakeNext(p: Packet, addresses: seq<Address>) returns (q: Packet)
    requires [p.da] + Upcoming(p) == addresses && |addresses| > 1
    ensures EndStep(p) == Some(q) && [q.da] + Upcoming(q) == addresses[1..]
  {
    assert Upcoming(p) == addresses[1..];
    EndTakesNext(p);
    q := EndStep(p).value;
  }

  lemma AddressesTail(blocks: seq<nat>, parts: seq<seq<seq<nat>>>)
    requires |blocks| == |parts| > 0 && F3216.Valid()
    requires forall i | 0 <= i < |parts| :: |Flatten(parts[i])| <= F3216.Per()
    ensures Addresses(blocks, parts)[1..] == Addresses(blocks[1..], parts[1..])
  {
  }

  lemma ShiftHead(n: Node, rest: seq<nat>, d: nat, f: nat)
    requires UsidLocator(n.locator) && FunctionsAreLocal(n) && GoodHead(rest, d, f) && |rest| <= 5
    ensures F3216.Valid() && F3216.Per() == 6
    ensures var da := Container(F3216, Block(F3216, n.locator.net), [NodeId(n.locator)] + rest);
            && Lookup(n, da) == NextCsid && da / P80 == n.locator.net / P80 && da % P80 != 0
            && Block(F3216, da) + da % P80 * 0x1_0000
               == Container(F3216, Block(F3216, n.locator.net), rest)
  {
    hide Bits.Pow2, Lookup, Block, NodeId, UsidLocator, Place;
    ShiftsPast(n, rest);
  }

  lemma OnTheWayOf(n: Node, cs: seq<nat>, d: nat, f: nat)
    requires F3216.Valid() && |cs| <= F3216.Per() && GoodHead(cs, d, f)
    requires WaypointsOnly(cs) || |cs| > 2
    ensures OnTheWay(Container(F3216, Block(F3216, n.locator.net), cs), d, f)
  {
    hide Bits.Pow2;
    BlockAligned(F3216, n.locator.net);
    ContainerReadsBack(F3216, Block(F3216, n.locator.net), cs);
  }

  ghost predicate Delivers(net: Network, ws: seq<Host>, dst: Host, f: nat, j: Journey)
    requires dst in net
  {
    && Hosts(j.visits) == ws
    && j.end == (if f in net[dst].decaps then Delivered(dst, f, FunctionSid(net[dst], f)) else Lost)
    && forall i | 0 <= i < |j.visits| :: OnTheWay(j.visits[i].da, NodeId(net[dst].locator), f)
  }

  lemma DeliversFrom(net: Network, ws: seq<Host>, dst: Host, f: nat, da: Address, j: Journey)
    requires ws != [] && dst in net && Delivers(net, ws[1..], dst, f, j)
    requires OnTheWay(da, NodeId(net[dst].locator), f)
    ensures Delivers(net, ws, dst, f, Visited(ws[0], da, j))
  {
    hide OnTheWay;
    var k := Visited(ws[0], da, j);
    assert Hosts(k.visits) == [ws[0]] + Hosts(j.visits);
  }

  lemma {:induction false} CarriedDelivers(net: Network, ws: seq<Host>, dst: Host, f: nat,
                                           blocks: seq<nat>, parts: seq<seq<seq<nat>>>, p: Packet)
    requires WellFormed(net) && dst in net && IsFunction(f)
    requires forall i | 0 <= i < |ws| :: ws[i] in net
    requires Carry(net, ws, dst, f, blocks, parts) && Travels(p, blocks, parts)
    ensures Delivers(net, ws, dst, f, Run(net, p, |ws| + 1))
    decreases |ws|
  {
    hide *;
    if ws == [] {
      CarriedPair(net, dst, f, blocks, parts);
      PairDelivers(net, dst, f, blocks, parts, p);
    } else {
      var q := WaypointStep(net, ws, dst, f, blocks, parts, p);
      CarriedShape(net, ws, dst, f, blocks, parts);
      CarriedDelivers(net, ws[1..], dst, f, NextBlocks(blocks, parts), NextParts(parts), q);
      RunNextCsid(net, ws[0], p, q, |ws| + 1);
      DeliversFrom(net, ws, dst, f, p.da, Run(net, q, |ws|));
    }
  }

  lemma CarriedPair(net: Network, dst: Host, f: nat, blocks: seq<nat>, parts: seq<seq<seq<nat>>>)
    requires dst in net && Carry(net, [], dst, f, blocks, parts)
    ensures parts == [[[NodeId(net[dst].locator), f]]] && |blocks| == 1
    ensures F3216.Valid() && blocks[0] == Block(F3216, net[dst].locator.net)
  {
  }

  lemma CarriedShape(net: Network, ws: seq<Host>, dst: Host, f: nat, blocks: seq<nat>, parts: seq<seq<seq<nat>>>)
    requires dst in net && forall i | 0 <= i < |ws| :: ws[i] in net
    requires Carry(net, ws, dst, f, blocks, parts)
    ensures |blocks| == |parts| > 0 && parts[0] != []
  {
  }

  lemma PairDelivers(net: Network, dst: Host, f: nat, blocks: seq<nat>, parts: seq<seq<seq<nat>>>, p: Packet)
    requires WellFormed(net) && dst in net && IsFunction(f)
    requires parts == [[[NodeId(net[dst].locator), f]]] && Travels(p, blocks, parts)
    requires blocks[0] == Block(F3216, net[dst].locator.net)
    ensures Delivers(net, [], dst, f, Run(net, p, 1))
  {
    FlattenSingle([NodeId(net[dst].locator), f]);
    hide Bits.Pow2, Lookup, Block, NodeId, Place, WellFormed, OnTheWay, Flatten, FunctionsAreLocal;
    assert p.da == Addresses(blocks, parts)[0];
    assert Upcoming(p) == [];
    NodeOk(net, dst);
    DecapsAt(net[dst], f);
    RunAtOwner(net, dst, p, 1);
  }

  lemma RunNextCsid(net: Network, h: Host, p: Packet, q: Packet, steps: nat)
    requires WellFormed(net) && Owns(net, h, p.da) && steps > 0
    requires Lookup(net[h], p.da) == NextCsid && NextCsidStep(p) == Some(q)
    ensures Run(net, p, steps) == Visited(h, p.da, Run(net, q, steps - 1))
  {
    RunAtOwner(net, h, p, steps);
    hide Run, Lookup, NextCsidStep;
  }

  lemma RunAtOwner(net: Network, h: Host, p: Packet, steps: nat)
    requires WellFormed(net) && Owns(net, h, p.da) && steps > 0
    ensures Run(net, p, steps) == RunAt(net, h, p, steps)
  {
    forall g | Owns(net, g, p.da)
      ensures g == h
    {
      OwnerIs(net, h, g, p.da);
    }
    hide WellFormed, RunAt;
  }

  lemma NodeOk(net: Network, h: Host)
    requires WellFormed(net) && h in net
    ensures UsidLocator(net[h].locator) && FunctionsAreLocal(net[h])
  {
  }

  // ------------------------------------------------------------------
  // What an ingress pushes for the waypoints ws to function f of dst
  // ------------------------------------------------------------------
  // The logical segment list: the waypoints' uN SIDs, then the decap SID.
  ghost function Segments(net: Network, ws: seq<Host>, dst: Host, f: nat): seq<Address>
    requires dst in net && forall i | 0 <= i < |ws| :: ws[i] in net
  {
    if ws == [] then [FunctionSid(net[dst], f)] else [net[ws[0]].locator.net] + Segments(net, ws[1..], dst, f)
  }

  ghost function SidGroups(net: Network, ws: seq<Host>, dst: Host, f: nat): seq<seq<nat>>
    requires dst in net && forall i | 0 <= i < |ws| :: ws[i] in net
  {
    if ws == [] then [[NodeId(net[dst].locator), f]]
    else [[NodeId(net[ws[0]].locator)]] + SidGroups(net, ws[1..], dst, f)
  }

  ghost function SidBlocks(net: Network, ws: seq<Host>, dst: Host): seq<nat>
    requires dst in net && F3216.Valid() && forall i | 0 <= i < |ws| :: ws[i] in net
  {
    if ws == [] then [Block(F3216, net[dst].locator.net)]
    else [Block(F3216, net[ws[0]].locator.net)] + SidBlocks(net, ws[1..], dst)
  }

  // The address `seg` is the container of `group` on `block`, and reads back as it.
  ghost predicate IsContainer(seg: Address, block: nat, group: seq<nat>) {
    && F3216.Valid() && F3216.Per() == 6
    && 0 < |group| <= 6 && seg == Container(F3216, block, group)
    && Decode(F3216, seg) == Some(group) && Block(F3216, seg) == block
  }

  // Each SID by itself is a container on its own block.
  lemma {:induction false} SegmentsAreContainers(net: Network, ws: seq<Host>, dst: Host, f: nat)
    requires WellFormed(net) && dst in net && IsFunction(f)
    requires forall i | 0 <= i < |ws| :: ws[i] in net
    ensures F3216.Valid() && F3216.Per() == 6
    ensures var segs, groups, blocks := Segments(net, ws, dst, f), SidGroups(net, ws, dst, f), SidBlocks(net, ws, dst);
            && |segs| == |groups| == |blocks| == |ws| + 1
            && forall i | 0 <= i <= |ws| :: IsContainer(segs[i], blocks[i], groups[i])
  {
    hide WellFormed, Block, Bits.Pow2, NodeId, IsContainer, FunctionSid, IsFunction;
    if ws == [] {
      PairContainer(net, dst, f);
    } else {
      SegmentsAreContainers(net, ws[1..], dst, f);
      WaypointContainer(net, ws[0]);
    }
  }

  lemma PairContainer(net: Network, dst: Host, f: nat)
    requires WellFormed(net) && dst in net && IsFunction(f)
    ensures F3216.Valid() && F3216.Per() == 6
    ensures var b, cs := Block(F3216, net[dst].locator.net), [NodeId(net[dst].locator), f];
            IsContainer(FunctionSid(net[dst], f), b, cs)
  {
    hide Bits.Pow2, Lookup, Block, Place, WellFormed, Decode, NodeId, FunctionSid, FunctionsAreLocal;
    NodeOk(net, dst);
    DecapsAt(net[dst], f);
    PairIsGoodHead(net[dst], f);
    BlockAligned(F3216, net[dst].locator.net);
    ContainerReadsBack(F3216, Block(F3216, net[dst].locator.net), [NodeId(net[dst].locator), f]);
  }

  lemma WaypointContainer(net: Network, w: Host)
    requires WellFormed(net) && w in net
    ensures F3216.Valid() && F3216.Per() == 6
    ensures var b, cs := Block(F3216, net[w].locator.net), [NodeId(net[w].locator)];
            IsContainer(net[w].locator.net, b, cs)
  {
    hide Bits.Pow2, Lookup, Block, Place, WellFormed, Decode, NodeId, FunctionSid, FunctionsAreLocal;
    NodeOk(net, w);
    EndsAt(net[w]);
    NodeIsCsid(net[w]);
    BlockAligned(F3216, net[w].locator.net);
    ContainerReadsBack(F3216, Block(F3216, net[w].locator.net), [NodeId(net[w].locator)]);
  }

  lemma EncapsRedTravels(segs: seq<Address>, blocks: seq<nat>, parts: seq<seq<seq<nat>>>)
    requires F3216.Valid() && |blocks| == |parts| > 0
    requires forall i | 0 <= i < |parts| :: |Flatten(parts[i])| <= F3216.Per()
    requires segs == Addresses(blocks, parts)
    ensures Travels(EncapsRed(segs), blocks, parts)
  {
    var p := EncapsRed(segs);
    assert Upcoming(p) == segs[1..];
    assert [p.da] + Upcoming(p) == segs;
  }

  // Whole SIDs, in order, at most six C-SIDs a container, all on one block:
  // that is all the nodes need.
  lemma {:induction false} GroupingCarries(net: Network, ws: seq<Host>, dst: Host, f: nat, block: nat,
                                           blocks: seq<nat>, parts: seq<seq<seq<nat>>>)
    requires F3216.Valid() && dst in net && forall i | 0 <= i < |ws| :: ws[i] in net
    requires |blocks| == |parts| && forall i | 0 <= i < |parts| :: blocks[i] == block
    requires forall i | 0 <= i < |parts| :: parts[i] != [] && |Flatten(parts[i])| <= 6
    requires Flatten(parts) == SidGroups(net, ws, dst, f)
    requires Block(F3216, net[dst].locator.net) == block
    requires forall i | 0 <= i < |ws| :: Block(F3216, net[ws[i]].locator.net) == block
    ensures Carry(net, ws, dst, f, blocks, parts)
    decreases |ws|
  {
    hide Block, NodeId, Bits.Pow2, Flatten;
    PartsHead(parts, SidGroups(net, ws, dst, f));
    if ws == [] {
      assert parts == [[[NodeId(net[dst].locator), f]]];
    } else {
      hide Carry;
      assert SidGroups(net, ws, dst, f)[1..] == SidGroups(net, ws[1..], dst, f);
      GroupingCarries(net, ws[1..], dst, f, block, NextBlocks(blocks, parts), NextParts(parts));
      CarryFrom(net, ws, dst, f, blocks, parts);
    }
  }

  lemma CarryFrom(net: Network, ws: seq<Host>, dst: Host, f: nat, blocks: seq<nat>, parts: seq<seq<seq<nat>>>)
    requires F3216.Valid() && ws != [] && dst in net && forall i | 0 <= i < |ws| :: ws[i] in net
    requires |blocks| == |parts| > 0 && parts[0] != []
    requires forall i | 0 <= i < |parts| :: |Flatten(parts[i])| <= 6
    requires parts[0][0] == [NodeId(net[ws[0]].locator)] && blocks[0] == Block(F3216, net[ws[0]].locator.net)
    requires Carry(net, ws[1..], dst, f, NextBlocks(blocks, parts), NextParts(parts))
    ensures Carry(net, ws, dst, f, blocks, parts)
  {
    hide Block, NodeId, Bits.Pow2, Flatten;
  }

  // Taking the first SID out of the containers takes it off what they hold.
  lemma PartsHead(parts: seq<seq<seq<nat>>>, groups: seq<seq<nat>>)
    requires groups != [] && Flatten(parts) == groups
    requires forall i | 0 <= i < |parts| :: parts[i] != [] && |Flatten(parts[i])| <= 6
    ensures parts != [] && parts[0][0] == groups[0]
    ensures Flatten(NextParts(parts)) == groups[1..]
    ensures forall i | 0 <= i < |NextParts(parts)| :: NextParts(parts)[i] != [] && |Flatten(NextParts(parts)[i])| <= 6
    ensures |groups| == 1 ==> parts == [[groups[0]]]
  {
    var part := parts[0];
    FirstOf(parts);
    FirstOf(part);
    if |part| > 1 {
      RestOf(parts);
    }
    if |groups| == 1 {
      OnlyOne(parts);
    }
  }

  lemma FirstOf<T>(parts: seq<seq<T>>)
    requires parts != []
    ensures Flatten(parts) == parts[0] + Flatten(parts[1..])
  {
  }

  // The first part without its first group.
  lemma RestOf(parts: seq<seq<seq<nat>>>)
    requires parts != [] && |parts[0]| > 1
    ensures Flatten(NextParts(parts)) == Flatten(parts)[1..]
    ensures |Flatten(NextParts(parts)[0])| <= |Flatten(parts[0])|
  {
    hide Flatten;
    var next, part := NextParts(parts), parts[0];
    assert next[0] == part[1..] && next[1..] == parts[1..];
    FirstOf(next);
    FirstOf(parts);
    FirstOf(part);
    DropFirst(part, Flatten(parts[1..]));
  }

  lemma DropFirst<T>(a: seq<T>, b: seq<T>)
    requires a != []
    ensures (a + b)[1..] == a[1..] + b
  {
  }

  lemma OnlyOne(parts: seq<seq<seq<nat>>>)
    requires parts != [] && |Flatten(parts)| == 1 && forall i | 0 <= i < |parts| :: parts[i] != []
    ensures parts == [[Flatten(parts)[0]]]
  {
    FirstOf(parts);
    var rest := parts[1..];
    if rest != [] {
      FirstOf(rest);
    }
    assert Flatten(rest) == [] && rest == [];
    assert parts[0] == [Flatten(parts)[0]];
    assert parts == [parts[0]];
  }

  function Singles(groups: seq<seq<nat>>): seq<seq<seq<nat>>> {
    seq(|groups|, i requires 0 <= i < |groups| => [groups[i]])
  }

  lemma {:induction false} SinglesCarry(net: Network, ws: seq<Host>, dst: Host, f: nat)
    requires F3216.Valid() && dst in net && forall i | 0 <= i < |ws| :: ws[i] in net
    ensures Carry(net, ws, dst, f, SidBlocks(net, ws, dst), Singles(SidGroups(net, ws, dst, f)))
    decreases |ws|
  {
    hide Block, NodeId, Bits.Pow2;
    var groups := SidGroups(net, ws, dst, f);
    var parts := Singles(groups);
    SinglesFit(net, ws, dst, f);
    if ws == [] {
      assert parts == [[[NodeId(net[dst].locator), f]]];
    } else {
      SinglesCarry(net, ws[1..], dst, f);
      assert groups[1..] == SidGroups(net, ws[1..], dst, f);
      assert parts[1..] == Singles(SidGroups(net, ws[1..], dst, f));
      assert SidBlocks(net, ws, dst)[1..] == SidBlocks(net, ws[1..], dst);
    }
  }

  lemma {:induction false} SinglesFit(net: Network, ws: seq<Host>, dst: Host, f: nat)
    requires F3216.Valid() && dst in net && forall i | 0 <= i < |ws| :: ws[i] in net
    ensures |SidGroups(net, ws, dst, f)| == |SidBlocks(net, ws, dst)| == |ws| + 1
    ensures forall i | 0 <= i <= |ws| ::
              var g := SidGroups(net, ws, dst, f)[i]; |g| <= 2 && Flatten([g]) == g
    decreases |ws|
  {
    hide Block, NodeId, Bits.Pow2;
    var groups := SidGroups(net, ws, dst, f);
    if ws != [] {
      SinglesFit(net, ws[1..], dst, f);
    }
    forall i | 0 <= i <= |ws|
      ensures |groups[i]| <= 2 && Flatten([groups[i]]) == groups[i]
    {
      FlattenSingle(groups[i]);
      if i > 0 {
        assert groups[i] == SidGroups(net, ws[1..], dst, f)[i - 1];
      }
    }
  }

  // ------------------------------------------------------------------
  // The encoding keeps the meaning of the list
  // ------------------------------------------------------------------
  // Whatever the waypoints -- any number, repeated, several containers, or
  // nodes of different blocks -- pushing what encode gives with
  // H.Encaps.Red takes the packet through exactly them, in order, and
  // delivers it in the domain of f on dst, or drops it there when dst does
  // not hold f; every address it shows on the way holds waypoints only, or
  // waypoints in front of the decap pair.
  lemma EncodedDelivers(net: Network, ws: seq<Host>, dst: Host, f: nat)
    requires WellFormed(net) && dst in net && IsFunction(f)
    requires forall i | 0 <= i < |ws| :: ws[i] in net
    ensures Encoded(Segments(net, ws, dst, f), true) != []
    ensures Delivers(net, ws, dst, f, Run(net, EncapsRed(Encoded(Segments(net, ws, dst, f), true)), |ws| + 1))
  {
    var segs := Segments(net, ws, dst, f);
    SegmentsAreContainers(net, ws, dst, f);
    if Packable(F3216, segs) {
      PackedDelivers(net, ws, dst, f);
    } else {
      FullDelivers(net, ws, dst, f);
    }
  }

  lemma PackedDelivers(net: Network, ws: seq<Host>, dst: Host, f: nat)
    requires WellFormed(net) && dst in net && IsFunction(f)
    requires forall i | 0 <= i < |ws| :: ws[i] in net
    requires F3216.Valid() && Packable(F3216, Segments(net, ws, dst, f))
    ensures Packed(F3216, Segments(net, ws, dst, f)) != []
    ensures Delivers(net, ws, dst, f, Run(net, EncapsRed(Packed(F3216, Segments(net, ws, dst, f))), |ws| + 1))
  {
    var segs := Segments(net, ws, dst, f);
    var blocks, parts := PackedCarries(net, ws, dst, f);
    hide *;
    EncapsRedTravels(Packed(F3216, segs), blocks, parts);
    CarriedDelivers(net, ws, dst, f, blocks, parts, EncapsRed(Packed(F3216, segs)));
  }

  // The packed containers carry the waypoints' C-SIDs and the pair.
  lemma PackedCarries(net: Network, ws: seq<Host>, dst: Host, f: nat) returns (blocks: seq<nat>, parts: seq<seq<seq<nat>>>)
    requires WellFormed(net) && dst in net && IsFunction(f)
    requires forall i | 0 <= i < |ws| :: ws[i] in net
    requires F3216.Valid() && Packable(F3216, Segments(net, ws, dst, f))
    ensures |blocks| == |parts| && Carry(net, ws, dst, f, blocks, parts)
    ensures F3216.Valid() && forall i | 0 <= i < |parts| :: |Flatten(parts[i])| <= F3216.Per()
    ensures Packed(F3216, Segments(net, ws, dst, f)) == Addresses(blocks, parts) != []
  {
    hide *;
    var segs, groups := Segments(net, ws, dst, f), SidGroups(net, ws, dst, f);
    SegmentGroups(net, ws, dst, f);
    parts := Fill(6, [], groups);
    var block := Block(F3216, segs[0]);
    blocks := seq(|parts|, i => block);
    PackedIs(segs, groups, block, blocks, parts);
    SameBlocks(net, ws, dst, f, block);
    PartsNonEmpty(parts, groups);
    GroupingFlattens(parts, groups);
    GroupingCarries(net, ws, dst, f, block, blocks, parts);
    SomeAddresses(blocks, parts);
  }

  lemma SomeAddresses(blocks: seq<nat>, parts: seq<seq<seq<nat>>>)
    requires |blocks| == |parts| && F3216.Valid() && parts != []
    requires forall i | 0 <= i < |parts| :: |Flatten(parts[i])| <= F3216.Per()
    ensures Addresses(blocks, parts) != []
  {
    hide Flatten, Container;
  }

  // The SIDs of a packable list, as the C-SIDs they carry.
  lemma SegmentGroups(net: Network, ws: seq<Host>, dst: Host, f: nat)
    requires WellFormed(net) && dst in net && IsFunction(f)
    requires forall i | 0 <= i < |ws| :: ws[i] in net
    requires F3216.Valid() && Packable(F3216, Segments(net, ws, dst, f))
    ensures F3216.Per() == 6
    ensures var segs, groups, blocks := Segments(net, ws, dst, f), SidGroups(net, ws, dst, f), SidBlocks(net, ws, dst);
            && |segs| == |groups| == |blocks| == |ws| + 1 && Groups(F3216, segs) == groups
            && (forall j | 0 <= j < |segs| :: Decode(F3216, segs[j]) == Some(groups[j]))
            && forall j | 0 <= j < |segs| :: blocks[j] == Block(F3216, segs[0])
  {
    SegmentsAreContainers(net, ws, dst, f);
    var segs, groups := Segments(net, ws, dst, f), SidGroups(net, ws, dst, f);
    hide WellFormed, Segments, SidGroups, SidBlocks, Bits.Pow2, Block, Decode, IsFunction;
    assert Groups(F3216, segs) == groups;
  }

  lemma GroupingFlattens(parts: seq<seq<seq<nat>>>, groups: seq<seq<nat>>)
    requires IsGrouping(6, parts, groups)
    ensures Flatten(parts) == groups
  {
  }

  // One container for each part of the filling, all of the first SID's block.
  lemma PackedIs(segs: seq<Address>, groups: seq<seq<nat>>, block: nat, blocks: seq<nat>, parts: seq<seq<seq<nat>>>)
    requires F3216.Valid() && Packable(F3216, segs) && segs != [] && |groups| == |segs| && Groups(F3216, segs) == groups
    requires forall j | 0 <= j < |segs| :: Decode(F3216, segs[j]) == Some(groups[j])
    requires F3216.Per() == 6 && parts == Fill(6, [], groups) && block == Block(F3216, segs[0])
    requires |blocks| == |parts| && forall i | 0 <= i < |parts| :: blocks[i] == block
    ensures IsGrouping(6, parts, groups) && forall i | 0 <= i < |parts| :: 0 < |Flatten(parts[i])| <= F3216.Per()
    ensures Packed(F3216, segs) == Addresses(blocks, parts)
  {
    FilledPartsAreCsids(F3216, segs, groups);
    hide *;
    PackedAt(segs, groups, parts);
    ContainersAlike(block, blocks, parts, Packed(F3216, segs));
  }

  lemma PackedAt(segs: seq<Address>, groups: seq<seq<nat>>, parts: seq<seq<seq<nat>>>)
    requires F3216.Valid() && Packable(F3216, segs) && segs != [] && Groups(F3216, segs) == groups
    requires parts == Fill(F3216.Per(), [], groups) && forall i | 0 <= i < |parts| :: |Flatten(parts[i])| <= F3216.Per()
    ensures |Packed(F3216, segs)| == |parts|
    ensures forall i | 0 <= i < |parts| :: Packed(F3216, segs)[i] == Container(F3216, Block(F3216, segs[0]), Flatten(parts[i]))
  {
    hide Bits.Pow2, Block, Fill, Flatten, Container, Groups, Packable, Decode;
  }

  lemma ContainersAlike(block: nat, blocks: seq<nat>, parts: seq<seq<seq<nat>>>, packed: seq<Address>)
    requires F3216.Valid() && |packed| == |blocks| == |parts| && forall i | 0 <= i < |parts| :: blocks[i] == block
    requires forall i | 0 <= i < |parts| :: |Flatten(parts[i])| <= F3216.Per()
    requires forall i | 0 <= i < |parts| :: packed[i] == Container(F3216, block, Flatten(parts[i]))
    ensures packed == Addresses(blocks, parts)
  {
    hide Flatten, Container;
  }

  lemma PartsNonEmpty(parts: seq<seq<seq<nat>>>, groups: seq<seq<nat>>)
    requires IsGrouping(6, parts, groups) && groups != []
    requires forall i | 0 <= i < |parts| :: |Flatten(parts[i])| > 0
    ensures parts != [] && forall i | 0 <= i < |parts| :: parts[i] != [] && |Flatten(parts[i])| <= 6
  {
    assert Flatten<seq<nat>>([]) == [] && Flatten<nat>([]) == [];
    forall i | 0 <= i < |parts|
      ensures |Flatten(parts[i])| <= 6
    {
      assert Fits(6, parts[i]);
    }
  }

  lemma {:induction false} SameBlocks(net: Network, ws: seq<Host>, dst: Host, f: nat, block: nat)
    requires dst in net && F3216.Valid() && forall i | 0 <= i < |ws| :: ws[i] in net
    requires |SidBlocks(net, ws, dst)| == |ws| + 1
    requires forall i | 0 <= i <= |ws| :: SidBlocks(net, ws, dst)[i] == block
    ensures Block(F3216, net[dst].locator.net) == block
    ensures forall i | 0 <= i < |ws| :: Block(F3216, net[ws[i]].locator.net) == block
    decreases |ws|
  {
    hide Block, Bits.Pow2;
    var blocks := SidBlocks(net, ws, dst);
    if ws == [] {
      assert blocks[0] == block;
    } else {
      assert blocks[1..] == SidBlocks(net, ws[1..], dst);
      assert blocks[0] == block;
      SameBlocks(net, ws[1..], dst, f, block);
      forall i | 0 <= i < |ws|
        ensures Block(F3216, net[ws[i]].locator.net) == block
      {
        if i > 0 {
          assert ws[1..][i - 1] == ws[i];
        }
      }
    }
  }

  // The fallback for a list over several blocks: full SIDs, still reduced.
  lemma FullDelivers(net: Network, ws: seq<Host>, dst: Host, f: nat)
    requires WellFormed(net) && dst in net && IsFunction(f)
    requires forall i | 0 <= i < |ws| :: ws[i] in net
    ensures Segments(net, ws, dst, f) != []
    ensures Delivers(net, ws, dst, f, Run(net, EncapsRed(Segments(net, ws, dst, f)), |ws| + 1))
  {
    var segs, groups, blocks := Segments(net, ws, dst, f), SidGroups(net, ws, dst, f), SidBlocks(net, ws, dst);
    SegmentsAreContainers(net, ws, dst, f);
    SinglesCarry(net, ws, dst, f);
    SinglesFit(net, ws, dst, f);
    hide Bits.Pow2, Block, NodeId, Place, WellFormed, Segments, SidGroups, SidBlocks, Decode, Carry, Delivers, Run, Flatten, Container;
    var parts := Singles(groups);
    forall i | 0 <= i < |parts|
      ensures |Flatten(parts[i])| <= 6 && Flatten(parts[i]) == groups[i]
    {
    }
    assert segs == Addresses(blocks, parts);
    EncapsRedTravels(segs, blocks, parts);
    CarriedDelivers(net, ws, dst, f, blocks, parts, EncapsRed(segs));
  }
}
