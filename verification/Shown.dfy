// What the API shows of a path, and what its ingress pushes.

module Shown {
  import opened Wrappers
  import opened Csid
  import opened Sid
  import opened Payload
  import opened TeRows
  import opened EncapRoutes
  import opened TePaths

  datatype Shown = Active(segments: seq<Address>, encoded: seq<Address>) | Degraded

  function BoundHost(ports: Ports, p: Port): Option<Host> {
    if p in ports then ports[p].host else None
  }

  function DestinationOf(ports: Ports, d: Destination): Option<Host> {
    match d
    case ToPort(p) => BoundHost(ports, p)
    case ToHost(h) => Some(h)
  }

  // A source VM's node is wherever it is bound now.
  function SourceOf(ports: Ports, s: Source): Option<Host> {
    match s
    case AnySource => None
    case FromHost(h) => Some(h)
    case FromPort(p) => BoundHost(ports, p)
  }

  // h is the host the path names, or where the port it names is bound.
  ghost predicate EndsAt(ports: Ports, row: TePath, h: Host) {
    row.to == ToHost(h) || exists p :: row.to == ToPort(p) && p in ports && ports[p].host == Some(h)
  }

  ghost predicate StartsAt(ports: Ports, row: TePath, h: Host) {
    row.from_ == FromHost(h) || exists p :: row.from_ == FromPort(p) && p in ports && ports[p].host == Some(h)
  }

  lemma EndsAre(ports: Ports, row: TePath, h: Host)
    ensures DestinationOf(ports, row.to) == Some(h) <==> EndsAt(ports, row, h)
    ensures SourceOf(ports, row.from_) == Some(h) <==> StartsAt(ports, row, h)
  {
    if row.to.ToPort? && row.to.port in ports {
      assert row.to == ToPort(row.to.port);
    }
    if row.from_.FromPort? && row.from_.port in ports {
      assert row.from_ == FromPort(row.from_.port);
    }
  }

  predicate IsActive(g: Nodes, ports: Ports, row: TePath, f: Option<nat>) {
    var source, destination := SourceOf(ports, row.from_), DestinationOf(ports, row.to);
    && destination.Some? && destination.value in g.locators
    && TransitSids(g, row.via).Some? && f.Some?
    && (row.from_.FromPort? ==> source.Some?)
    && (source.Some? ==> source.value in g.locators && destination != source)
  }

  // How a node is named as a waypoint, dead or not.
  function OwnSid(g: Nodes, h: Host): Option<Address> {
    if h in g.fabric + g.locators then WaypointSid(g.usid, (g.fabric + g.locators)[h]) else None
  }

  ghost function ShownFor(g: Nodes, ports: Ports, row: TePath, f: Option<nat>): Shown
    requires f.Some? ==> AllEncodable(f.value, g.locators)
  {
    if !IsActive(g, ports, row, f) then Degraded
    else
      var source, destination := SourceOf(ports, row.from_), DestinationOf(ports, row.to).value;
      var transit := TransitSids(g, row.via).value;
      var own := if source.Some? then OwnSid(g, source.value) else None;
      assert Encodable(f.value, g.locators[destination]);
      var segments := (if own.Some? then Trimmed(transit, own.value) else transit)
                      + [SidFor(g.locators[destination], f.value).value];
      Active(segments, Encoded(segments, g.usid))
  }

  method ResolveTePath(g: Nodes, ports: Ports, row: TePath, f: Option<nat>) returns (shown: Shown)
    requires f.Some? ==> AllEncodable(f.value, g.locators)
    ensures shown == ShownFor(g, ports, row, f)
  {
    if !IsActive(g, ports, row, f) {
      return Degraded;
    }
    var source, destination := SourceOf(ports, row.from_), DestinationOf(ports, row.to).value;
    var transit := TransitSids(g, row.via).value;
    if source.Some? {
      var own := OwnSid(g, source.value);
      if own.Some? {
        transit := DropLeading(transit, own.value);
      }
    }
    assert Encodable(f.value, g.locators[destination]);
    var segments := transit + [SidFor(g.locators[destination], f.value).value];
    var encoded := Encode(segments, g.usid);
    shown := Active(segments, encoded);
  }

  // A path is active exactly if its destination and, where it names one,
  // another source are bound to registered nodes, every waypoint can be one,
  // and the domain has a function id. Its list then ends at the destination's
  // own SID for the domain, after the waypoints but for leading ones that are
  // the source, and does not begin with the source.
  lemma ShownMeans(g: Nodes, ports: Ports, row: TePath, f: Option<nat>)
    requires f.Some? ==> AllEncodable(f.value, g.locators)
    ensures var shown, to := ShownFor(g, ports, row, f), DestinationOf(ports, row.to);
            && (shown.Active? <==>
                  && to.Some? && to.value in g.locators && f.Some? && (forall w | w in row.via :: IsNamed(g, w))
                  && (row.from_.AnySource? || (SourceOf(ports, row.from_).Some? && SourceOf(ports, row.from_).value in g.locators
                                               && SourceOf(ports, row.from_) != to)))
            && (shown.Active? ==>
                  shown.encoded == Encoded(shown.segments, g.usid) && exists k :: 0 <= k <= |row.via| && ListIs(g, ports, row, f, shown.segments, k))
  {
    assert SourceOf(ports, row.from_).None? <==> row.from_.AnySource? || (row.from_.FromPort? && BoundHost(ports, row.from_.port).None?);
    hide Encoded, AllEncodable, OwnSid, IsNamed, ListNames;
    if IsActive(g, ports, row, f) {
      var k := ShownList(g, ports, row, f);
      hide *;
    }
  }

  lemma ShownList(g: Nodes, ports: Ports, row: TePath, f: Option<nat>) returns (k: nat)
    requires f.Some? && AllEncodable(f.value, g.locators) && IsActive(g, ports, row, f)
    ensures k <= |row.via| && ShownFor(g, ports, row, f).Active?
    ensures ListIs(g, ports, row, f, ShownFor(g, ports, row, f).segments, k)
  {
    hide *;
    ActiveParts(g, ports, row, f);
    var transit, own := TransitSids(g, row.via).value, SourceSid(g, ports, row);
    k := 0;
    if own.Some? {
      k := TrimmedIsSuffix(transit, own.value);
    }
    var rest := if own.Some? then Trimmed(transit, own.value) else transit;
    assert rest == transit[k..];
    ShownValue(g, ports, row, f, rest);
    ListFrom(g, ports, row, f, transit, k);
  }

  function SourceSid(g: Nodes, ports: Ports, row: TePath): Option<Address> {
    if SourceOf(ports, row.from_).Some? then OwnSid(g, SourceOf(ports, row.from_).value) else None
  }

  lemma ActiveParts(g: Nodes, ports: Ports, row: TePath, f: Option<nat>)
    requires IsActive(g, ports, row, f)
    ensures TransitSids(g, row.via).Some? && f.Some? && |TransitSids(g, row.via).value| == |row.via|
    ensures DestinationOf(ports, row.to).Some? && DestinationOf(ports, row.to).value in g.locators
  {
  }

  lemma ShownValue(g: Nodes, ports: Ports, row: TePath, f: Option<nat>, rest: seq<Address>)
    requires f.Some? && AllEncodable(f.value, g.locators) && IsActive(g, ports, row, f)
    requires var transit, own := TransitSids(g, row.via).value, SourceSid(g, ports, row);
             rest == if own.Some? then Trimmed(transit, own.value) else transit
    ensures var to := g.locators[DestinationOf(ports, row.to).value];
            && ShownFor(g, ports, row, f).Active? && SidFor(to, f.value).Some?
            && ShownFor(g, ports, row, f).segments == rest + [SidFor(to, f.value).value]
  {
    assert Encodable(f.value, g.locators[DestinationOf(ports, row.to).value]);
    hide Encoded, Trimmed, SidFor, OwnSid, TransitSids;
  }

  lemma ListFrom(g: Nodes, ports: Ports, row: TePath, f: Option<nat>, transit: seq<Address>, k: nat)
    requires f.Some? && AllEncodable(f.value, g.locators)
    requires DestinationOf(ports, row.to).Some? && DestinationOf(ports, row.to).value in g.locators
    requires TransitSids(g, row.via) == Some(transit) && k <= |transit|
    requires SidFor(g.locators[DestinationOf(ports, row.to).value], f.value).Some? && ShownFor(g, ports, row, f).Active?
    requires ShownFor(g, ports, row, f).segments
          == transit[k..] + [SidFor(g.locators[DestinationOf(ports, row.to).value], f.value).value]
    requires var own := SourceSid(g, ports, row);
             && (forall i | 0 <= i < k :: own == Some(transit[i])) && (k < |transit| && own.Some? ==> transit[k] != own.value)
    ensures ListIs(g, ports, row, f, ShownFor(g, ports, row, f).segments, k)
  {
    var segments, last := ShownFor(g, ports, row, f).segments, SidFor(g.locators[DestinationOf(ports, row.to).value], f.value).value;
    assert ListNames(g, row.via, transit);
    hide *;
    NamesAre(g, row.via, transit, k);
    Ends(transit, k, last, segments);
    forall i | 0 <= i < k
      ensures IsSource(g, ports, row, row.via[i])
    {
      OwnIs(g, ports, row, transit[i]);
      SourceIs(g, ports, row, row.via[i], transit[i]);
    }
    OwnIs(g, ports, row, segments[0]);
    ListIsFrom(g, ports, row, f, segments, k);
  }

  lemma Ends(transit: seq<Address>, k: nat, last: Address, segments: seq<Address>)
    requires k <= |transit| && segments == transit[k..] + [last]
    ensures |segments| == |transit| - k + 1 && segments[|transit| - k] == last
    ensures segments[..|transit| - k] == transit[k..]
    ensures k < |transit| ==> segments[0] == transit[k]
  {
  }

  lemma ListIsFrom(g: Nodes, ports: Ports, row: TePath, f: Option<nat>, segments: seq<Address>, k: nat)
    requires k <= |row.via| && |segments| == |row.via| - k + 1 && f.Some?
    requires DestinationOf(ports, row.to).Some? && DestinationOf(ports, row.to).value in g.locators
    requires SidFor(g.locators[DestinationOf(ports, row.to).value], f.value) == Some(segments[|row.via| - k])
    requires ListNames(g, row.via[k..], segments[..|row.via| - k])
    requires forall i | 0 <= i < k :: IsSource(g, ports, row, row.via[i])
    requires k < |row.via| ==> !IsOwn(g, ports, row, segments[0])
    ensures ListIs(g, ports, row, f, segments, k)
  {
    hide ListNames, IsSource, IsOwn, SidFor, DestinationOf;
  }

  lemma NamesAre(g: Nodes, via: Via, list: seq<Address>, k: nat)
    requires ListNames(g, via, list) && k <= |list|
    ensures |list| == |via| && ListNames(g, via[k..], list[k..])
    ensures forall i | 0 <= i < k :: Names(g, via[i], list[i])
  {
    hide Names;
  }

  lemma OwnIs(g: Nodes, ports: Ports, row: TePath, a: Address)
    ensures SourceSid(g, ports, row) == Some(a) <==> IsOwn(g, ports, row, a)
  {
    hide SidFor, SourceOf;
  }

  // a names the path's source, dead or not.
  ghost predicate IsOwn(g: Nodes, ports: Ports, row: TePath, a: Address) {
    SourceOf(ports, row.from_).Some? && Names(g.(dead := {}), SourceOf(ports, row.from_).value, a)
  }

  // The waypoint h goes by an address of the source.
  ghost predicate IsSource(g: Nodes, ports: Ports, row: TePath, h: Host) {
    exists a :: Names(g, h, a) && IsOwn(g, ports, row, a)
  }

  lemma SourceIs(g: Nodes, ports: Ports, row: TePath, h: Host, a: Address)
    requires Names(g, h, a) && IsOwn(g, ports, row, a)
    ensures IsSource(g, ports, row, h)
  {
    hide Names, IsOwn;
  }

  // The list leaves out the first k waypoints, all of them the source.
  ghost predicate ListIs(g: Nodes, ports: Ports, row: TePath, f: Option<nat>, segments: seq<Address>, k: nat)
    requires k <= |row.via|
  {
    var to := DestinationOf(ports, row.to);
    && |segments| == |row.via| - k + 1 && to.Some? && to.value in g.locators && f.Some?
    && SidFor(g.locators[to.value], f.value) == Some(segments[|row.via| - k])
    && ListNames(g, row.via[k..], segments[..|row.via| - k])
    && (forall i | 0 <= i < k :: IsSource(g, ports, row, row.via[i]))
    && (k < |row.via| ==> !IsOwn(g, ports, row, segments[0]))
  }

  // For a path with a source, the list shown is the list its ingress pushes
  // for every route the path wins there.
  lemma ShownIsPushed(rows: seq<TePath>, domain: nat, m: PathMaps, g: Nodes, ports: Ports, r: Route,
                      ingress: Host, v: Port, row: TePath, f: nat, cfg: Config)
    requires Filed(rows, domain, m) && AllEncodable(f, g.locators)
    requires v in ports && ports[v].host == Some(ingress) && r.host != ingress && BoundHost(ports, r.port) == Some(r.host)
    requires Wins(rows, domain, Ranks(g, ingress, v, r), row) && !row.from_.AnySource?
    requires ShownFor(g, ports, row, Some(f)).Active?
    requires cfg.local == ingress && cfg.usid == g.usid && Names(g.(dead := {}), ingress, cfg.own)
    ensures r.host in g.locators && Encodable(f, g.locators[r.host])
    ensures Pushed(cfg, f, g.locators[r.host], TransitFor(Attached(g, ports, m, r), ingress, v))
         == ShownFor(g, ports, row, Some(f)).encoded
  {
    Precedence(rows, domain, m, g, ports, r, ingress, v);
    WinnerIsOwn(rows, domain, g, r, ingress, v, row);
    hide Attached, TransitFor, Wins, Ranks, Filed;
    OwnIs(g, ports, row, cfg.own);
    hide Names, Resolves;
    assert DestinationOf(ports, row.to) == Some(r.host);
    assert SourceOf(ports, row.from_) == Some(ingress);
    hide Encoded, Trimmed;
  }

  lemma WinnerIsOwn(rows: seq<TePath>, domain: nat, g: Nodes, r: Route, ingress: Host, v: Port, row: TePath)
    requires Wins(rows, domain, Ranks(g, ingress, v, r), row)
    ensures row.from_ in {FromPort(v), FromHost(ingress), AnySource} && row.to in {ToPort(r.port), ToHost(r.host)}
  {
    RanksAre(g, ingress, v, r);
  }

  // A path over a dead node, or one nobody registered, shows as degraded, and
  // where it is the winner the packet goes direct.
  lemma DeadPathIsDirect(rows: seq<TePath>, domain: nat, m: PathMaps, g: Nodes, ports: Ports, r: Route,
                         ingress: Host, v: Port, row: TePath, h: Host, f: Option<nat>)
    requires Filed(rows, domain, m) && (f.Some? ==> AllEncodable(f.value, g.locators))
    requires h in row.via && (h in g.dead || (h !in g.locators && h !in g.fabric))
    ensures ShownFor(g, ports, row, f) == Degraded
    ensures v in ports && ports[v].host == Some(ingress) && r.host != ingress && Wins(rows, domain, Ranks(g, ingress, v, r), row) ==>
              TransitFor(Attached(g, ports, m, r), ingress, v) == []
  {
    assert !IsNamed(g, h);
    hide Attached, TransitFor, Wins, Ranks, Filed, IsNamed, Names;
    if v in ports && ports[v].host == Some(ingress) && r.host != ingress && Wins(rows, domain, Ranks(g, ingress, v, r), row) {
      Precedence(rows, domain, m, g, ports, r, ingress, v);
      DeadIsNotNamed(g, row, h, ingress, TransitFor(Attached(g, ports, m, r), ingress, v));
    }
  }
}
