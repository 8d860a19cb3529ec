// What the server tells every node about a domain's routes.

module Payload {
  import opened Wrappers
  import opened Csid

  type Host = nat
  type PortId = nat
  type DomainId = nat
  type NetworkId = nat
  // A workload's own prefix, normalised.
  type Dest = nat

  // A source VM's path on one route: where the VM is bound, what identifies
  // its traffic, and the transit SIDs; an empty list is an explicit "direct".
  datatype Vm = Vm(host: Host, network: NetworkId, prefixes: set<Dest>, segments: seq<Address>)

  datatype Route = Route(
    prefix: Dest,
    host: Host,
    port: PortId,
    segments: Option<seq<Address>>,
    bySource: map<Host, seq<Address>>,
    bySourcePort: map<PortId, Vm>)

  // The transit list this node pushes unless a steer table says otherwise:
  // its own entry, even an empty one, before the list for everybody.
  function SegmentsFor(route: Route, local: Host): seq<Address> {
    if local in route.bySource then route.bySource[local]
    else if route.segments.Some? then route.segments.value
    else []
  }
}
