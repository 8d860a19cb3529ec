// Which stored path decides a packet's route: the server puts the answers
// for every ingress into one payload, the agent and the kernel pick.

module TePaths {
  import opened Wrappers
  import opened Csid
  import opened Sid
  import opened Payload
  import opened TeRows
  import opened EncapRoutes

  type Via = seq<Host>

  // Paths by destination port and by destination host.
  datatype Maps = Maps(byPort: map<Port, Via>, byHost: map<Host, Via>)
  datatype PathMaps = PathMaps(any: Maps, bySource: map<Host, Maps>, bySourcePort: map<Port, Maps>)

  const NO_PATHS: Maps := Maps(map[], map[])

  // ------------------------------------------------------------------
  // Filing the rows of a domain
  // ------------------------------------------------------------------
  // One path per domain, destination and source.
  ghost predicate Unique(rows: seq<TePath>) {
    forall i, j | 0 <= i < |rows| && 0 <= j < |rows| && rows[i].domain == rows[j].domain
               && rows[i].to == rows[j].to && rows[i].from_ == rows[j].from_ :: i == j
  }

  function MapsOf(m: PathMaps, s: Source): Maps {
    match s
    case AnySource => m.any
    case FromHost(h) => if h in m.bySource then m.bySource[h] else NO_PATHS
    case FromPort(p) => if p in m.bySourcePort then m.bySourcePort[p] else NO_PATHS
  }

  function ViaTo(maps: Maps, d: Destination): Option<Via> {
    match d
    case ToPort(p) => if p in maps.byPort then Some(maps.byPort[p]) else None
    case ToHost(h) => if h in maps.byHost then Some(maps.byHost[h]) else None
  }

  function File(maps: Maps, d: Destination, via: Via): Maps {
    match d
    case ToPort(p) => maps.(byPort := maps.byPort[p := via])
    case ToHost(h) => maps.(byHost := maps.byHost[h := via])
  }

  ghost predicate HasRow(rows: seq<TePath>, domain: nat, s: Source, d: Destination, via: Via) {
    exists i :: 0 <= i < |rows| && IsRow(rows[i], domain, s, d) && rows[i].via == via
  }

  predicate IsRow(row: TePath, domain: nat, s: Source, d: Destination) {
    row.domain == domain && row.from_ == s && row.to == d
  }

  // The maps hold the domain's paths and nothing else.
  ghost predicate Filed(rows: seq<TePath>, domain: nat, m: PathMaps) {
    && (forall i | 0 <= i < |rows| && rows[i].domain == domain :: ViaTo(MapsOf(m, rows[i].from_), rows[i].to) == Some(rows[i].via))
    && forall s, d :: ViaTo(MapsOf(m, s), d).Some? ==> HasRow(rows, domain, s, d, ViaTo(MapsOf(m, s), d).value)
  }

  // The source is read first, so that a source's path is never filed among
  // the any-source ones.
  method PathsForDomain(rows: seq<TePath>, domain: nat) returns (m: PathMaps)
    requires Unique(rows)
    ensures Filed(rows, domain, m)
  {
    m := PathMaps(NO_PATHS, map[], map[]);
    for n := 0 to |rows|
      invariant Filed(rows[..n], domain, m)
    {
      var row := rows[n];
      FiledStep(rows, n, domain, m);
      if row.domain == domain {
        var filed := File(MapsOf(m, row.from_), row.to, row.via);
        match row.from_ {
          case AnySource => m := m.(any := filed);
          case FromHost(h) => m := m.(bySource := m.bySource[h := filed]);
          case FromPort(p) => m := m.(bySourcePort := m.bySourcePort[p := filed]);
        }
      }
    }
    assert rows[..|rows|] == rows;
  }

  function Refile(m: PathMaps, s: Source, maps: Maps): PathMaps {
    match s
    case AnySource => m.(any := maps)
    case FromHost(h) => m.(bySource := m.bySource[h := maps])
    case FromPort(p) => m.(bySourcePort := m.bySourcePort[p := maps])
  }

  lemma RefileIs(m: PathMaps, s: Source, d: Destination, via: Via)
    ensures var m' := Refile(m, s, File(MapsOf(m, s), d, via));
            forall s', d' :: ViaTo(MapsOf(m', s'), d') == if s' == s && d' == d then Some(via) else ViaTo(MapsOf(m, s'), d')
  {
  }

  lemma FiledStep(rows: seq<TePath>, n: nat, domain: nat, m: PathMaps)
    requires n < |rows| && Unique(rows) && Filed(rows[..n], domain, m)
    ensures Filed(rows[..n + 1], domain,
                  if rows[n].domain != domain then m
                  else Refile(m, rows[n].from_, File(MapsOf(m, rows[n].from_), rows[n].to, rows[n].via)))
  {
    var a, b, row := rows[..n + 1], rows[..n], rows[n];
    assert forall i | 0 <= i < n :: a[i] == b[i];
    assert a[n] == row;
    RefileIs(m, row.from_, row.to, row.via);
    hide MapsOf, ViaTo, File, Refile;
    forall s, d, via | HasRow(b, domain, s, d, via)
      ensures HasRow(a, domain, s, d, via)
    {
      var i :| 0 <= i < |b| && IsRow(b[i], domain, s, d) && b[i].via == via;
      assert a[i] == b[i];
    }
    assert row.domain == domain ==> HasRow(a, domain, row.from_, row.to, row.via);
    assert forall i | 0 <= i < n && rows[i].domain == row.domain :: !(rows[i].from_ == row.from_ && rows[i].to == row.to);
  }

  // ------------------------------------------------------------------
  // Resolving a list of waypoints
  // ------------------------------------------------------------------
  // Registered locators, the topology file's for nodes that run no agent,
  // the hosts whose node is dead, and the encoding.
  datatype Nodes = Nodes(locators: Locators, fabric: Locators, dead: set<Host>, usid: bool)

  function WaypointSid(usid: bool, locator: Prefix): Option<Address> {
    if usid then (if locator.len == 48 then Some(locator.net) else None)
    else SidFor(locator, NODE_END_FUNCTION_ID)
  }

  predicate Usable(g: Nodes, h: Host) {
    h in g.fabric + g.locators && h !in g.dead && WaypointSid(g.usid, (g.fabric + g.locators)[h]).Some?
  }

  function SidOf(g: Nodes, h: Host): Address
    requires Usable(g, h)
  {
    WaypointSid(g.usid, (g.fabric + g.locators)[h]).value
  }

  // A waypoint h goes by a: its node is alive, and a is the address of its
  // locator, the registered one before the topology file's, in usid mode, and
  // its End SID otherwise.
  ghost predicate Names(g: Nodes, h: Host, a: Address) {
    && h !in g.dead && (h in g.locators || h in g.fabric)
    && var locator := if h in g.locators then g.locators[h] else g.fabric[h];
       if g.usid then locator.len == 48 && a == locator.net
       else SidFor(locator, NODE_END_FUNCTION_ID) == Some(a)
  }

  ghost predicate IsNamed(g: Nodes, h: Host) {
    exists a :: Names(g, h, a)
  }

  // Hop by hop.
  ghost predicate ListNames(g: Nodes, via: Via, list: seq<Address>) {
    |list| == |via| && forall i | 0 <= i < |via| :: Names(g, via[i], list[i])
  }

  lemma UsableIs(g: Nodes, h: Host)
    ensures Usable(g, h) <==> IsNamed(g, h)
    ensures Usable(g, h) ==> Names(g, h, SidOf(g, h))
  {
    hide SidFor;
    if Usable(g, h) {
      assert Names(g, h, SidOf(g, h));
    }
  }

  // All of the waypoints or none: a list with a hop missing is another path.
  function TransitSids(g: Nodes, via: Via): (r: Option<seq<Address>>)
    ensures r.Some? <==> forall h | h in via :: IsNamed(g, h)
    ensures r.Some? ==> ListNames(g, via, r.value)
  {
    if via == [] then Some([])
    else
      UsableIs(g, via[0]);
      var rest := TransitSids(g, via[1..]);
      if Usable(g, via[0]) && rest.Some? then Some([SidOf(g, via[0])] + rest.value) else None
  }

  // What one set of paths gives a route: nothing, or a list; an empty list,
  // asked for or for want of a usable waypoint, is an explicit "direct".
  function RouteTransit(g: Nodes, r: Route, maps: Maps, source: Option<Host>): Option<seq<Address>> {
    var via := if r.port in maps.byPort then Some(maps.byPort[r.port])
               else if r.host in maps.byHost then Some(maps.byHost[r.host]) else None;
    if via.None? then None
    else if via.value == [] then Some([])
    else
      var transit := if source.None? || source.value in g.locators then TransitSids(g, via.value) else None;
      Some(if transit.Some? then transit.value else [])
  }

  // ------------------------------------------------------------------
  // The payload
  // ------------------------------------------------------------------
  datatype PortInfo = PortInfo(host: Option<Host>, network: NetworkId, prefixes: set<Dest>)
  type Ports = map<Port, PortInfo>

  predicate IsBare(r: Route) {
    r.segments.None? && r.bySource == map[] && r.bySourcePort == map[]
  }

  function SourceEntries(g: Nodes, m: PathMaps, r: Route): map<Host, seq<Address>> {
    map s | s in m.bySource && s != r.host && RouteTransit(g, r, m.bySource[s], Some(s)).Some?
      :: RouteTransit(g, r, m.bySource[s], Some(s)).value
  }

  // A source VM that is bound to a registered node.
  predicate CanSteer(g: Nodes, ports: Ports, v: Port) {
    v in ports && ports[v].host.Some? && ports[v].host.value in g.locators
  }

  function VmTransit(g: Nodes, ports: Ports, m: PathMaps, r: Route, v: Port): Option<seq<Address>>
    requires v in m.bySourcePort
  {
    if CanSteer(g, ports, v) && ports[v].host.value != r.host
    then RouteTransit(g, r, m.bySourcePort[v], ports[v].host) else None
  }

  function VmEntries(g: Nodes, ports: Ports, m: PathMaps, r: Route): map<Port, Vm> {
    map v | v in m.bySourcePort && VmTransit(g, ports, m, r, v).Some?
      :: Vm(ports[v].host.value, ports[v].network, ports[v].prefixes, VmTransit(g, ports, m, r, v).value)
  }

  ghost function Attached(g: Nodes, ports: Ports, m: PathMaps, r: Route): Route {
    var any := RouteTransit(g, r, m.any, None);
    r.(segments := if any.Some? && any.value != [] then any else None,
       bySource := SourceEntries(g, m, r),
       bySourcePort := VmEntries(g, ports, m, r))
  }

  // The answers for every ingress and every source VM go into each route.
  method AttachSegments(g: Nodes, ports: Ports, m: PathMaps, routes: array<Route>)
    requires forall i | 0 <= i < routes.Length :: IsBare(routes[i])
    modifies routes
    ensures forall i | 0 <= i < routes.Length :: routes[i] == Attached(g, ports, m, old(routes[i]))
  {
    hide RouteTransit, VmTransit;
    for n := 0 to routes.Length
      invariant forall i | 0 <= i < n :: routes[i] == Attached(g, ports, m, old(routes[i]))
      invariant forall i | n <= i < routes.Length :: routes[i] == old(routes[i])
    {
      var r := routes[n];
      var any := RouteTransit(g, r, m.any, None);
      if any.Some? && any.value != [] {
        routes[n] := routes[n].(segments := any);
      }
      var perSource := AttachSources(g, m, r);
      routes[n] := routes[n].(bySource := perSource);
      var perVm := AttachVms(g, ports, m, r);
      routes[n] := routes[n].(bySourcePort := perVm);
    }
  }

  method AttachSources(g: Nodes, m: PathMaps, r: Route) returns (perSource: map<Host, seq<Address>>)
    ensures perSource == SourceEntries(g, m, r)
  {
    hide RouteTransit;
    perSource := map[];
    var todo := m.bySource.Keys;
    while todo != {}
      invariant todo <= m.bySource.Keys
      invariant perSource == SourceEntries(g, m, r) - todo
    {
      var s: Host :| s in todo;
      todo := todo - {s};
      if s != r.host {
        var transit := RouteTransit(g, r, m.bySource[s], Some(s));
        if transit.Some? {
          perSource := perSource[s := transit.value];
        }
      }
    }
  }

  method AttachVms(g: Nodes, ports: Ports, m: PathMaps, r: Route) returns (perVm: map<Port, Vm>)
    ensures perVm == VmEntries(g, ports, m, r)
  {
    hide RouteTransit;
    perVm := map[];
    var todo := m.bySourcePort.Keys;
    while todo != {}
      invariant todo <= m.bySourcePort.Keys
      invariant perVm == VmEntries(g, ports, m, r) - todo
    {
      var v: Port :| v in todo;
      todo := todo - {v};
      if CanSteer(g, ports, v) && ports[v].host.value != r.host {
        var transit := RouteTransit(g, r, m.bySourcePort[v], ports[v].host);
        if transit.Some? {
          perVm := perVm[v := Vm(ports[v].host.value, ports[v].network, ports[v].prefixes, transit.value)];
        }
      }
    }
  }

  // ------------------------------------------------------------------
  // Precedence
  // ------------------------------------------------------------------
  // What the packet of a VM behind this ingress gets: its steer table's
  // route, or else the VRF's, which is the node's own entry before the rest.
  function TransitFor(r: Route, ingress: Host, v: Port): seq<Address> {
    if v in r.bySourcePort && r.bySourcePort[v].host == ingress then r.bySourcePort[v].segments
    else SegmentsFor(r, ingress)
  }

  type Rank = (Source, Destination)

  // The order the administrator was promised. A source VM counts on a
  // registered node only.
  function Ranks(g: Nodes, ingress: Host, v: Port, r: Route): seq<Rank> {
    (if ingress in g.locators then [(FromPort(v), ToPort(r.port)), (FromPort(v), ToHost(r.host))] else [])
    + [(FromHost(ingress), ToPort(r.port)), (FromHost(ingress), ToHost(r.host)),
       (AnySource, ToPort(r.port)), (AnySource, ToHost(r.host))]
  }

  ghost predicate RankTaken(rows: seq<TePath>, domain: nat, rank: Rank) {
    exists i :: 0 <= i < |rows| && IsRow(rows[i], domain, rank.0, rank.1)
  }

  // The row of the first rank that has one.
  ghost predicate Wins(rows: seq<TePath>, domain: nat, ranks: seq<Rank>, row: TePath) {
    row in rows && exists k :: 0 <= k < |ranks| && IsRow(row, domain, ranks[k].0, ranks[k].1)
                            && forall j | 0 <= j < k :: !RankTaken(rows, domain, ranks[j])
  }

  // A winner with no waypoint, or one that cannot be used, is direct: it
  // never gives way to a path further down.
  function TransitOf(g: Nodes, ingress: Host, row: TePath): seq<Address> {
    var t := TransitSids(g, row.via);
    if t.Some? && (row.from_.AnySource? || ingress in g.locators) then t.value else []
  }

  // What a winner may have pushed: its waypoints, every one of them alive and
  // registered, or else nothing.
  ghost predicate Resolves(g: Nodes, ingress: Host, row: TePath, pushed: seq<Address>) {
    if (row.from_.AnySource? || ingress in g.locators) && forall h | h in row.via :: IsNamed(g, h)
    then ListNames(g, row.via, pushed) else pushed == []
  }

  lemma TransitResolves(g: Nodes, ingress: Host, row: TePath)
    ensures Resolves(g, ingress, row, TransitOf(g, ingress, row))
  {
    hide Names, IsNamed;
  }

  // It is one list.
  lemma ResolvesOnce(g: Nodes, ingress: Host, row: TePath, a: seq<Address>, b: seq<Address>)
    requires Resolves(g, ingress, row, a) && Resolves(g, ingress, row, b)
    ensures a == b
  {
    hide SidFor, IsNamed;
    if a != [] {
      assert a == b;
    }
  }

  // A dead waypoint, or one that is not registered, is no list.
  lemma DeadIsNotNamed(g: Nodes, row: TePath, h: Host, ingress: Host, pushed: seq<Address>)
    requires h in row.via && (h in g.dead || (h !in g.locators && h !in g.fabric))
    ensures Resolves(g, ingress, row, pushed) <==> pushed == []
  {
    assert !IsNamed(g, h);
    hide IsNamed, Names;
  }

  lemma RankIs(rows: seq<TePath>, domain: nat, m: PathMaps, rank: Rank)
    requires Filed(rows, domain, m)
    ensures RankTaken(rows, domain, rank) <==> ViaTo(MapsOf(m, rank.0), rank.1).Some?
    ensures forall row | row in rows && IsRow(row, domain, rank.0, rank.1) :: ViaTo(MapsOf(m, rank.0), rank.1) == Some(row.via)
  {
    if ViaTo(MapsOf(m, rank.0), rank.1).Some? {
      assert HasRow(rows, domain, rank.0, rank.1, ViaTo(MapsOf(m, rank.0), rank.1).value);
    }
  }

  // The via list one source gives a route: by port before by host.
  ghost function ViaFrom(m: PathMaps, s: Source, r: Route): Option<Via> {
    if ViaTo(MapsOf(m, s), ToPort(r.port)).Some? then ViaTo(MapsOf(m, s), ToPort(r.port))
    else ViaTo(MapsOf(m, s), ToHost(r.host))
  }

  ghost function Resolve(g: Nodes, s: Source, ingress: Host, via: Via): seq<Address> {
    var t := TransitSids(g, via);
    if t.Some? && (s.AnySource? || ingress in g.locators) then t.value else []
  }

  lemma TransitFrom(g: Nodes, m: PathMaps, r: Route, s: Source, ingress: Host)
    ensures var via := ViaFrom(m, s, r);
            RouteTransit(g, r, MapsOf(m, s), if s.AnySource? then None else Some(ingress))
            == if via.None? then None else Some(Resolve(g, s, ingress, via.value))
  {
  }

  // What reaches the kernel, source by source.
  lemma PushedIs(g: Nodes, ports: Ports, m: PathMaps, r: Route, ingress: Host, v: Port)
    requires v in ports && ports[v].host == Some(ingress) && r.host != ingress
    ensures var pushed := TransitFor(Attached(g, ports, m, r), ingress, v);
            var vm, host, any := ViaFrom(m, FromPort(v), r), ViaFrom(m, FromHost(ingress), r), ViaFrom(m, AnySource, r);
            pushed == if ingress in g.locators && vm.Some? then Resolve(g, FromPort(v), ingress, vm.value)
                      else if host.Some? then Resolve(g, FromHost(ingress), ingress, host.value)
                      else if any.Some? then Resolve(g, AnySource, ingress, any.value)
                      else []
  {
    TransitFrom(g, m, r, FromPort(v), ingress);
    TransitFrom(g, m, r, FromHost(ingress), ingress);
    TransitFrom(g, m, r, AnySource, ingress);
    EntriesAre(g, ports, m, r, ingress, v);
    hide ViaFrom, Resolve, RouteTransit, SourceEntries, VmEntries;
  }

  lemma EntriesAre(g: Nodes, ports: Ports, m: PathMaps, r: Route, ingress: Host, v: Port)
    requires v in ports && ports[v].host == Some(ingress) && r.host != ingress
    ensures var mine := RouteTransit(g, r, MapsOf(m, FromPort(v)), Some(ingress));
            var entries := VmEntries(g, ports, m, r);
            if ingress in g.locators && mine.Some?
            then v in entries && entries[v].host == ingress && entries[v].segments == mine.value
            else v !in entries
    ensures var own := RouteTransit(g, r, MapsOf(m, FromHost(ingress)), Some(ingress));
            var entries := SourceEntries(g, m, r);
            if own.Some? then ingress in entries && entries[ingress] == own.value else ingress !in entries
  {
  }

  // The whole chain, server to kernel, is the promised order.
  lemma Precedence(rows: seq<TePath>, domain: nat, m: PathMaps, g: Nodes, ports: Ports, r: Route, ingress: Host, v: Port)
    requires Filed(rows, domain, m)
    requires v in ports && ports[v].host == Some(ingress) && r.host != ingress
    ensures var ranks := Ranks(g, ingress, v, r);
            var pushed := TransitFor(Attached(g, ports, m, r), ingress, v);
            && (forall row | Wins(rows, domain, ranks, row) ::
                  pushed == TransitOf(g, ingress, row) && Resolves(g, ingress, row, pushed))
            && ((forall k | 0 <= k < |ranks| :: !RankTaken(rows, domain, ranks[k])) ==> pushed == [])
  {
    var ranks := Ranks(g, ingress, v, r);
    var pushed := TransitFor(Attached(g, ports, m, r), ingress, v);
    PushedIs(g, ports, m, r, ingress, v);
    forall k | 0 <= k < |ranks|
      ensures RankTaken(rows, domain, ranks[k]) <==> ViaTo(MapsOf(m, ranks[k].0), ranks[k].1).Some?
    {
      RankIs(rows, domain, m, ranks[k]);
    }
    if forall k | 0 <= k < |ranks| :: !RankTaken(rows, domain, ranks[k]) {
      NoRank(m, g, r, ingress, v);
    }
    hide Attached, TransitFor, ViaFrom, Resolve, TransitSids, Ranks, Resolves, TransitOf;
    forall row | Wins(rows, domain, ranks, row)
      ensures pushed == TransitOf(g, ingress, row) && Resolves(g, ingress, row, pushed)
    {
      TransitResolves(g, ingress, row);
      var k :| 0 <= k < |ranks| && IsRow(row, domain, ranks[k].0, ranks[k].1)
            && forall j | 0 <= j < k :: !RankTaken(rows, domain, ranks[j]);
      RankIs(rows, domain, m, ranks[k]);
      FirstRank(m, g, r, ingress, v, k, row);
    }
  }

  // ------------------------------------------------------------------
  // What a payload may carry
  // ------------------------------------------------------------------
  // The list is that of a stored path from s to the route, over waypoints
  // that are all alive and registered.
  ghost predicate ComesFrom(rows: seq<TePath>, domain: nat, g: Nodes, r: Route, s: Source, list: seq<Address>) {
    exists row :: row in rows && (IsRow(row, domain, s, ToPort(r.port)) || IsRow(row, domain, s, ToHost(r.host)))
               && ListNames(g, row.via, list)
  }

  // Every waypoint list a route carries.
  lemma AttachedAreNamed(rows: seq<TePath>, domain: nat, m: PathMaps, g: Nodes, ports: Ports, r: Route)
    requires Filed(rows, domain, m)
    ensures var a := Attached(g, ports, m, r);
            && (a.segments.Some? ==> ComesFrom(rows, domain, g, r, AnySource, a.segments.value))
            && (forall h | h in a.bySource && a.bySource[h] != [] :: ComesFrom(rows, domain, g, r, FromHost(h), a.bySource[h]))
            && (forall v | v in a.bySourcePort && a.bySourcePort[v].segments != [] ::
                  ComesFrom(rows, domain, g, r, FromPort(v), a.bySourcePort[v].segments))
  {
    hide RouteTransit, ComesFrom, Filed;
    var a := Attached(g, ports, m, r);
    TransitIsNamed(rows, domain, m, g, r, AnySource, None);
    forall h: Host | h in a.bySource && a.bySource[h] != []
      ensures ComesFrom(rows, domain, g, r, FromHost(h), a.bySource[h])
    {
      TransitIsNamed(rows, domain, m, g, r, FromHost(h), Some(h));
    }
    forall v: Port | v in a.bySourcePort && a.bySourcePort[v].segments != []
      ensures ComesFrom(rows, domain, g, r, FromPort(v), a.bySourcePort[v].segments)
    {
      TransitIsNamed(rows, domain, m, g, r, FromPort(v), ports[v].host);
    }
  }

  lemma TransitIsNamed(rows: seq<TePath>, domain: nat, m: PathMaps, g: Nodes, r: Route, s: Source, host: Option<Host>)
    requires Filed(rows, domain, m)
    ensures var t := RouteTransit(g, r, MapsOf(m, s), host);
            t.Some? && t.value != [] ==> ComesFrom(rows, domain, g, r, s, t.value)
  {
    var t := RouteTransit(g, r, MapsOf(m, s), host);
    if t.Some? && t.value != [] {
      var to := if r.port in MapsOf(m, s).byPort then ToPort(r.port) else ToHost(r.host);
      assert ViaTo(MapsOf(m, s), to).Some?;
      var via := ViaTo(MapsOf(m, s), to).value;
      assert TransitSids(g, via) == t;
      assert HasRow(rows, domain, s, to, via);
      var i :| 0 <= i < |rows| && IsRow(rows[i], domain, s, to) && rows[i].via == via;
      hide ListNames, Filed, RouteTransit;
      assert rows[i] in rows;
    }
  }

  lemma FirstRank(m: PathMaps, g: Nodes, r: Route, ingress: Host, v: Port, k: nat, row: TePath)
    requires var ranks := Ranks(g, ingress, v, r);
             && k < |ranks| && ranks[k].0 == row.from_ && ViaTo(MapsOf(m, ranks[k].0), ranks[k].1) == Some(row.via)
             && forall j | 0 <= j < k :: ViaTo(MapsOf(m, ranks[j].0), ranks[j].1).None?
    ensures var vm, host, any := ViaFrom(m, FromPort(v), r), ViaFrom(m, FromHost(ingress), r), ViaFrom(m, AnySource, r);
            TransitOf(g, ingress, row) ==
              if ingress in g.locators && vm.Some? then Resolve(g, FromPort(v), ingress, vm.value)
              else if host.Some? then Resolve(g, FromHost(ingress), ingress, host.value)
              else if any.Some? then Resolve(g, AnySource, ingress, any.value)
              else []
  {
    var ranks := Ranks(g, ingress, v, r);
    RanksAre(g, ingress, v, r);
    hide MapsOf, ViaTo, TransitSids, Ranks;
    if ingress in g.locators {
      assert 0 < k ==> ViaTo(MapsOf(m, ranks[0].0), ranks[0].1).None?;
      assert 1 < k ==> ViaTo(MapsOf(m, ranks[1].0), ranks[1].1).None?;
      assert 2 < k ==> ViaTo(MapsOf(m, ranks[2].0), ranks[2].1).None?;
      assert 3 < k ==> ViaTo(MapsOf(m, ranks[3].0), ranks[3].1).None?;
      assert 4 < k ==> ViaTo(MapsOf(m, ranks[4].0), ranks[4].1).None?;
    } else {
      assert 0 < k ==> ViaTo(MapsOf(m, ranks[0].0), ranks[0].1).None?;
      assert 1 < k ==> ViaTo(MapsOf(m, ranks[1].0), ranks[1].1).None?;
      assert 2 < k ==> ViaTo(MapsOf(m, ranks[2].0), ranks[2].1).None?;
    }
  }

  lemma RanksAre(g: Nodes, ingress: Host, v: Port, r: Route)
    ensures var ranks := Ranks(g, ingress, v, r);
            if ingress in g.locators then
              && |ranks| == 6 && ranks[0] == (FromPort(v), ToPort(r.port)) && ranks[1] == (FromPort(v), ToHost(r.host))
              && ranks[2] == (FromHost(ingress), ToPort(r.port)) && ranks[3] == (FromHost(ingress), ToHost(r.host))
              && ranks[4] == (AnySource, ToPort(r.port)) && ranks[5] == (AnySource, ToHost(r.host))
            else
              && |ranks| == 4
              && ranks[0] == (FromHost(ingress), ToPort(r.port)) && ranks[1] == (FromHost(ingress), ToHost(r.host))
              && ranks[2] == (AnySource, ToPort(r.port)) && ranks[3] == (AnySource, ToHost(r.host))
  {
  }

  lemma NoRank(m: PathMaps, g: Nodes, r: Route, ingress: Host, v: Port)
    requires var ranks := Ranks(g, ingress, v, r);
             forall k | 0 <= k < |ranks| :: ViaTo(MapsOf(m, ranks[k].0), ranks[k].1).None?
    ensures ingress in g.locators ==> ViaFrom(m, FromPort(v), r).None?
    ensures ViaFrom(m, FromHost(ingress), r).None? && ViaFrom(m, AnySource, r).None?
  {
    var ranks := Ranks(g, ingress, v, r);
    RanksAre(g, ingress, v, r);
    hide MapsOf, ViaTo, Ranks;
    forall rank | rank in ranks
      ensures ViaTo(MapsOf(m, rank.0), rank.1).None?
    {
    }
    if ingress in g.locators {
      assert ranks[0] in ranks && ranks[1] in ranks && ranks[4] in ranks && ranks[5] in ranks;
    }
    assert ranks[2] in ranks && ranks[3] in ranks && ranks[0] in ranks && ranks[1] in ranks;
  }
}
