// The stored traffic-engineering paths.

module TeRows {
  import opened Graph

  type PathId = nat
  type Port = nat

  // The API validates exactly one destination and at most one source.
  datatype Destination = ToPort(port: Port) | ToHost(host: Node)
  datatype Source = FromPort(port: Port) | FromHost(host: Node) | AnySource

  // `auto` marks a path the server made itself.
  datatype TePath = TePath(id: PathId, domain: nat, to: Destination, from_: Source, via: seq<Node>, auto: bool)
}
