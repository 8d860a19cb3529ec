# networking-srv6-agent: a verified model

A Dafny model of the parts of the SRv6 service plugin and its node agent that
are hardest to get right, with proofs of what they promise. It covers the
constrained path computation, the microSID compiler and the network that
executes what it compiles, the reconciliation of a node's kernel step by step,
the precedence of traffic-engineering paths from the database to the packet,
the re-optimisation controller over whole runs, the agent's protocol, and the
registries that make a SID name one node and one domain.

`dafny verify dfyconfig.toml` checks everything. The proofs are Dafny's;
nothing of the original program is executed.

## How the modules fit

| files | model |
|---|---|
| `Graph`, `Pce`, `ShortestLinks` | walks and labels; the path search with its heap of paths; the links of all fewest-hop paths |
| `Bits`, `Csid`, `Sid` | 128-bit addresses as numbers; C-SIDs and containers; SIDs, locators, `encode`, `drop_leading` |
| `Forwarding`, `Resolver` | nodes executing SIDs (End, NEXT-C-SID, End.DT46, longest prefix first); naming a packet from the address it shows |
| `Payload`, `Kernel`, `EncapRoutes`, `Steering`, `LiveTables`, `Sync`, `Updates`, `SyncReads`, `SyncSafety`, `Dataplane` | the payload; the kernel with every privileged call as one step and a record of all its states; what routes, SID rules and steer tables should be; the route messages, and what the kernel holds after them in the payload's own terms; what holds between calls, and when it does not |
| `TeRows`, `TePaths`, `Shown`, `RouteLookup` | stored paths, the payload built from them, the list the API shows, and the route a packet takes |
| `Totals`, `PairView`, `ReoptMemory`, `ReoptPass`, `Covering` | the re-optimisation: gathering pairs, what its memory must guarantee, what a pass reads and computes, which stored paths it must leave alone |
| `ReoptRun`, `ReoptLoop`, `Reopt` | a pass as the steps it takes, and the controller that takes them |
| `ReoptCaps`, `OverrunPass`, `OverrunReading`, `ReoptOverrun` | what a pass may add under the two caps; a family of passes, and what they are read from, that add as much; when a cap is passed |
| `AgentMemory`, `AgentAnswers`, `AgentRuns`, `Agent` | what an agent remembers and a sync should leave; what it does about each message, as a relation; what the answers add up to over a run; the agent itself: sync, tombstones, dormant domains, orphans |
| `Registry` | locator claims and the function id pool |

Classes carry the source's own state and methods change it; each is proved
against predicates over values, and the properties are lemmas about those.
Ghost logs record what happened, so that a property of every intermediate
state or of a whole run is one of the log: the kernel's calls and states
(`Kernel.Recorded` makes each state one call after the one before), the
agent's `events` and the snapshots between its messages. A re-optimisation pass is a sequence of steps, each with the
state it finds and the state it leaves (`ReoptRun.LookOk`, `ReoptRun.TryOk`);
the controller's `log` is a function of them.

Reading choices. Names, hosts, ports and prefixes are numbers, since only
equality and order matter. Rates and times are reals. Python's iteration over a
dictionary or a query without an order is any order. What the code reads from
outside (measurements, OVSDB, replies, liveness, the clock) is a parameter. A
command that may fail is a nondeterministic branch.

## Where the code and its own words differ

- `networking_srv6_agent/services/pce.py:92` says ties go to the
  lexicographically smallest path. `Pce.TiesMayMissTheLeast` is a graph where
  they do not; `Pce.TiesGoToLeastIff` says exactly when they do.
- `networking_srv6_agent/common/config.py:181-190` calls te_auto_max_paths and
  te_auto_max_rules_per_host maxima. Each congested link of a pass counts from
  the paths read before the first
  (`networking_srv6_agent/services/te_reopt.py:180`, `:239-240`), so a pass
  over several links can end above either; and a VM with a path that nobody
  measures at the moment is not counted on its node at all (lines 241-242,
  305-306), so one link is enough then. `ReoptCaps.CapBound` and
  `ReoptCaps.RulesGrowth` are the bounds that hold over a whole pass,
  `ReoptOverrun.MostIsReached` gives, for any numbers, a pass that reaches
  both, and `ReoptOverrun.OverrunIff` and `ReoptOverrun.RulesOverrunIff` say
  exactly when a pass can end above the one and the other.
- `networking_srv6_agent/agent/dataplane.py:1502-1507` promises
  make-before-break for steer tables. It holds for a table no rule used before
  (`Sync.StepsSafe`, `Updates.AddStepsSafe`); in a table already in use a
  route is replaced before the SID rule of its new first segment
  (lines 1566-1575). `LiveTables.LiveTableIff` says exactly when every step
  keeps such a table reachable, `LiveTables.LiveTableMayStrand` is an input
  that does not. Between calls every steer table is reachable
  (`SyncSafety.CallsKeepSteerSafe`).
- A route towards a first segment with no underlay device is wanted but not
  rewritten (`networking_srv6_agent/agent/dataplane.py:1401-1402`), and its
  old SID rule may go. `SyncSafety.SyncSafeIff` says exactly when a full sync
  leaves every VRF route reachable all the same, `Dataplane.SyncRoutes` that
  the same condition decides for every step of it, and
  `SyncSafety.RunSafeIff` for every step of a run of messages;
  `SyncSafety.SyncMayStrand` is an input where it fails. The properties of a
  full sync that need every wanted route in place ask for the devices to be
  known.
- `networking_srv6_agent/agent/agent_extension.py:327-331` says that state a
  node held of a domain without ports is removed. A removal can fail without a
  word (`networking_srv6_agent/agent/dataplane.py:807-812`); the domain is
  then remembered as dormant, and no later sync looks again.
  `AgentMemory.RepairsIff` says exactly when a sync repairs what failures left,
  `AgentMemory.LeakStays` that such a VRF outlives it, and `AgentMemory.LeakIsThere` is
  one.

## Model

| member | source | states |
|---|---|---|
| `Pce.Compute` | networking_srv6_agent/services/pce.py:84-118 | terminates although equal labels are pushed again; None exactly when no path has residual for the demand on every link; otherwise the canonical path |
| `Pce.BuildAdjacency` | networking_srv6_agent/services/pce.py:96-99 | the adjacency lists hold exactly the links whose residual takes the demand |
| `Pce.HeapPop` | networking_srv6_agent/services/pce.py:102-104 | takes out one least entry by label and then path, and leaves the others |
| `Pce.Relax` | networking_srv6_agent/services/pce.py:109-117 | keeps the search invariant: nothing that could still be the answer leaves the heap's reach, and the measure falls |
| `Pce.CanonicalIsBest` | networking_srv6_agent/services/pce.py:84-95 | the canonical path is simple, has room everywhere, and no path with room has fewer hops or as many and a wider bottleneck |
| `Pce.CanonicalIsUnique` | networking_srv6_agent/services/pce.py:100-118 | the answer is a function of the graph, not of the order links are read in |
| `Pce.TiesGoToLeastIff` | networking_srv6_agent/services/pce.py:91-95 | the smallest of the best paths is returned if and only if each of its prefixes carries the best label of its end |
| `Pce.TiesMayMissTheLeast` | networking_srv6_agent/services/pce.py:91-95 | a graph whose answer is not the smallest of the best paths |
| `Graph.WidthIsBottleneck` | networking_srv6_agent/services/pce.py:109-113 | the width carried along a path is the least residual on it |
| `Graph.OptimalIsSimple` | networking_srv6_agent/services/pce.py:105-112 | a path with the best label repeats no node, so refusing to revisit nodes loses nothing |
| `Graph.PrefixOptimalExists` | networking_srv6_agent/services/pce.py:100-118 | wherever a path exists, one exists all of whose prefixes carry the best label |
| `ShortestLinks.ShortestLinks` | networking_srv6_agent/services/pce.py:121-153 | exactly the links on some fewest-hop path; none when unreachable or src = dst |
| `ShortestLinks.ForwardSearch` | networking_srv6_agent/services/pce.py:130-139 | the distances found are the fewest hops, for exactly the reachable nodes |
| `ShortestLinks.StepBack` | networking_srv6_agent/services/pce.py:143-152 | one level of the backward sweep adds exactly the links into the frontier that are one hop tighter |
| `ShortestLinks.ComputedLinksAreShortest` | networking_srv6_agent/services/pce.py:84-153 | on an unloaded graph that takes the demand everywhere, every link of the computed path is in that set |
| `Sid.SidForValue` | networking_srv6_agent/common/sid.py:67-80 | the function field sits right below the locator: the SID lies in it and gives the function back |
| `Sid.OverlapsIff` | networking_srv6_agent/services/plugin.py:1915-1924 | two locators pass the overlap test of a claim if and only if they share an address |
| `Sid.ContainsIs` | networking_srv6_agent/common/sid.py:67-80 | a locator contains exactly the addresses from its own to its last |
| `Sid.UsidLocatorValue` | networking_srv6_agent/common/sid.py:123-172 | a /48 is its 32-bit block and its node C-SID, nothing below |
| `Sid.Encode` | networking_srv6_agent/common/sid.py:274-287 | in usid mode the list as containers if it can be packed, and otherwise, or in the other mode, the list as it is; never empty |
| `Sid.DropLeading` | networking_srv6_agent/common/sid.py:290-307 | the loop computes the trimmed list |
| `Sid.TrimmedIsSuffix` | networking_srv6_agent/common/sid.py:290-307 | what is dropped was the node itself, what stays is a suffix that does not begin with it |
| `Csid.CsidsOf` | networking_srv6_agent/common/sid.py:184-210 | reads exactly the C-SID sequences: a result is carried by the address, and None means no sequence is |
| `Csid.DecodeExact` | networking_srv6_agent/common/sid.py:184-210 | decoding succeeds on a sequence if and only if the address carries it |
| `Csid.PackNextCsid` | networking_srv6_agent/common/sid.py:213-271 | fails exactly on mixed blocks or a SID that is no C-SID sequence |
| `Csid.FillContainers` | networking_srv6_agent/common/sid.py:252-262 | the loop fills containers greedily, closing one when the next SID does not fit whole |
| `Csid.FillIsGrouping` | networking_srv6_agent/common/sid.py:252-262 | the containers keep every SID whole and in order, and none overflows |
| `Csid.FillIsMinimal` | networking_srv6_agent/common/sid.py:252-262 | no order-preserving grouping of whole SIDs needs fewer containers |
| `Csid.BuildContainer` | networking_srv6_agent/common/sid.py:263-271 | or-ing the C-SIDs in one by one gives the block and the C-SIDs at their places |
| `Csid.ContainerReadsBack` | networking_srv6_agent/common/sid.py:263-271 | a container reads back as its C-SIDs and keeps its block |
| `Csid.PackRoundTrip` | networking_srv6_agent/common/sid.py:213-271 | reading all containers back gives the C-SIDs of all inputs, in order |
| `Csid.PackedIsMinimal` | networking_srv6_agent/common/sid.py:213-271 | the container count is the least any order-preserving, non-splitting grouping has |
| `Forwarding.DeploymentIsWellFormed` | networking_srv6_agent/common/constants.py:199-225 | an F3216 deployment of three nodes is a network the theorems below are about |
| `Forwarding.EncodedDelivers` | networking_srv6_agent/common/sid.py:213-287 | for any waypoints, any number of containers and the mixed-block fallback: pushed with H.Encaps.Red (RFC 8986 section 5.2), the packet visits exactly the waypoints in order and comes out at the node and function of the last SID, or is dropped there if the node does not hold it |
| `Forwarding.PackedDelivers` | networking_srv6_agent/common/sid.py:213-271 | the same for a list packed into containers, shifted as RFC 9800 section 4.1.1 says |
| `Forwarding.FullDelivers` | networking_srv6_agent/common/sid.py:274-287 | the same for full SIDs taken from the header by End (RFC 8986 section 4.1) |
| `Forwarding.DecapsAt` | networking_srv6_agent/agent/dataplane.py:400-470 | the decap pair is decapsulated where the /64 route is and sealed by the /52 elsewhere, never read as the next node |
| `Forwarding.ShiftsPast` | networking_srv6_agent/common/constants.py:210-223 | under longest-prefix match a node's own C-SID followed by another node's reaches its uN and never its seal or a decap route, because the two C-SID ranges are disjoint |
| `Forwarding.EndsAt` | networking_srv6_agent/common/sid.py:165-172 | a node's own C-SID alone in a container is the node's address, and reaches its uN |
| `Resolver.Resolver.constructor` | networking_srv6_agent/services/aggregates.py:136-152 | the two tables hold every domain's SID on every node, and its C-SIDs, and nothing else |
| `Resolver.DeploymentIsRegistered` | networking_srv6_agent/services/aggregates.py:136-152 | two domains on the three nodes of an F3216 deployment are registered as the theorems about the resolver ask |
| `Resolver.Resolver.Addresses` | networking_srv6_agent/services/aggregates.py:154-157 | what is remembered is what was asked |
| `Resolver.Resolver.HoldingBoth` | networking_srv6_agent/services/aggregates.py:172-176 | the domains that hold both addresses, in order |
| `Resolver.Resolver.Resolve` | networking_srv6_agent/services/aggregates.py:159-190 | steered exactly when the address is no decap SID; the domain is the one the address names or, if it names none, the only one that holds both inner addresses -- with none, or with several, no domain; ports and hosts are that domain's, the destination host the one the address names |
| `Resolver.DecapSidHits` | networking_srv6_agent/services/aggregates.py:136-165 | a decap SID resolves to its own node and domain |
| `Resolver.MatchIsTrue` | networking_srv6_agent/services/aggregates.py:164-170 | a tail that matches names the true destination, so at most one target matches |
| `Resolver.EndsWithIs` | networking_srv6_agent/services/aggregates.py:164-170 | a tail is matched exactly behind at least one more C-SID |
| `Resolver.WaypointsMatchNothing` | networking_srv6_agent/services/aggregates.py:164-170 | a container of waypoints only matches no tail |
| `Resolver.OnTheWayResolves` | networking_srv6_agent/services/aggregates.py:159-170 | every address with waypoints in front of the decap pair hits as steered and names the packet's destination |
| `Resolver.JourneyResolves` | networking_srv6_agent/services/aggregates.py:136-190 | the resolver undoes the encoder on every address of a whole journey |
| `EncapRoutes.ComputeEncap` | networking_srv6_agent/agent/dataplane.py:1421-1460 | the list pushed is the waypoints, less the node itself in front, and the destination's SID, encoded; sealed if and only if something but the node itself is on the way and the edge filter does not cover the first segment; the device is the one towards the first segment |
| `EncapRoutes.InstalledFacts` | networking_srv6_agent/agent/dataplane.py:1361-1419 | every installed prefix is wanted, every wanted one is installed if its device is known, and every unsealed route's first segment has a rule |
| `Steering.BuildDesired` | networking_srv6_agent/agent/dataplane.py:1512-1526 | which VMs are steered here, where their traffic comes in, and their routes |
| `Steering.ClaimTables` | networking_srv6_agent/agent/dataplane.py:1527-1550 | no two VMs share a table, a claim is free or the VM's own by its rules, every VM gets one while enough are free, and a table only one VM could want goes back to it |
| `Steering.ClaimedTablesAreOwn` | networking_srv6_agent/agent/dataplane.py:1468-1550 | a claimed table is in the steer range, never a VRF's, and never one another domain's rules use |
| `Dataplane.Dataplane.EnsureSidRules` | networking_srv6_agent/agent/dataplane.py:1688-1700 | exactly the missing rules are added, and nothing else changes at any step |
| `Dataplane.Dataplane.InstallOne` | networking_srv6_agent/agent/dataplane.py:1391-1413 | a route's SID rule is in place before the route at every step |
| `Dataplane.Dataplane.InstallRoutes` | networking_srv6_agent/agent/dataplane.py:1361-1419 | the VRF gains exactly the payload's remote routes and their SID rules, and no step leaves an unsealed route without its rule |
| `Dataplane.Dataplane.RemoveEncapRoutes` | networking_srv6_agent/agent/dataplane.py:1763-1788 | the table loses exactly the routes named, one at a time |
| `Dataplane.Dataplane.RemoveUnwantedSidRules` | networking_srv6_agent/agent/dataplane.py:1702-1719 | only rules of this VRF that nothing needs go |
| `Dataplane.Dataplane.SteerVm` | networking_srv6_agent/agent/dataplane.py:1551-1597 | one VM's table ends up with its routes, SID rules and steer rules; its steer rules appear only once the table is ready; and a table that was safe stays so at every step if and only if the VM's routes could be reached to begin with |
| `LiveTables.LiveTableIff` | networking_srv6_agent/agent/dataplane.py:1502-1575 | a table in use keeps every unsealed route reachable at every step of rewriting it if and only if the new unsealed routes' first segments have SID rules before the first step |
| `LiveTables.LiveTableMayStrand` | networking_srv6_agent/agent/dataplane.py:1556-1575 | a table in use whose VM is moved onto a path with another first segment: the condition fails |
| `Dataplane.Dataplane.ReleaseTable` | networking_srv6_agent/agent/dataplane.py:1630-1643 | the rules given go and the table is emptied; no step changes the table's routes while one of those rules is left |
| `Dataplane.Dataplane.SyncSteering` | networking_srv6_agent/agent/dataplane.py:1490-1601 | the claims are good ones and the tables, SID rules and steer rules of the domain match the payload, step by step safely |
| `Dataplane.Dataplane.SyncRoutes` | networking_srv6_agent/agent/dataplane.py:1721-1788 | from any kernel whose steer rules are on steer tables, one domain to a table, which every call keeps: the VRF keeps only wanted routes and gains those it can install, the SID rules are exactly those needed, every claimed table holds exactly its VM's routes, the domain's other tables are empty, nothing of another domain changes, no steer table opens before it is ready; read in the payload's own terms as `SyncReads.SyncReadsPayload` says; and from a safe kernel every state on the way and the last are safe if and only if no wanted prefix it could not install has an old unsealed route towards a SID the payload does not need |
| `Dataplane.Dataplane.AddRoutes` | networking_srv6_agent/agent/dataplane.py:1310-1359 | the VRF gains the routes and loses those that are local now, the steer tables gain theirs, nothing else is removed, and every step is make-before-break; read in the payload's own terms as `SyncReads.AddReadsPayload` says |
| `SyncReads.SyncReadsPayload` | networking_srv6_agent/agent/dataplane.py:1361-1460 | after a full sync the domain has a SID rule for an address if and only if the payload has this node push a list that starts with it and either nothing but the node itself is on the way or the edge filter covers it; every remote prefix with a device holds the list, device and seal of its last route, no other prefix any; every claimed table holds exactly its VM's routes with a device; while the steer tables suffice every VM has one |
| `SyncReads.AddReadsPayload` | networking_srv6_agent/agent/dataplane.py:1310-1359 | after an addition, the same of the routes named: SID rules are added for exactly their lists, each route holds its list, and prefixes named as local hold none |
| `SyncReads.NeededIff` | networking_srv6_agent/agent/dataplane.py:1436-1446 | the first segments the domain may reach are exactly those of a list pushed straight to its destination, or covered by the edge filter |
| `SyncReads.VmIsRead` | networking_srv6_agent/agent/dataplane.py:1512-1526 | a VM is steered here if and only if some route towards a known node names it as bound here, on a network with a gateway port; the first such route says where its traffic comes in and its addresses, the last towards each prefix what is pushed |
| `SyncReads.FreeEnough` | networking_srv6_agent/agent/dataplane.py:1527-1550 | as many steer tables are free as the slots exceed those in use |
| `Dataplane.Dataplane.RemoveRoutes` | networking_srv6_agent/agent/dataplane.py:1790-1802 | exactly the named prefixes leave the VRF and no rule is touched |
| `Dataplane.Dataplane.DeleteDomain` | networking_srv6_agent/agent/dataplane.py:768-821 | nothing of the function id recorded for the domain is left in the kernel -- its VRF routes, steer tables, steer rules and SID rules -- and nothing else changes; the caller's id serves only where none is recorded |
| `Dataplane.Dataplane.Perform` | networking_srv6_agent/agent/dataplane.py:1310-1802 | any run of the three messages, whatever devices are known: each call does what its own message asks, step by step; from a safe kernel every unsealed route of every VRF may reach its first segment in every intermediate state if and only if every full sync of the run met that condition, and in particular if each knew its devices |
| `SyncSafety.CallsKeepSteerSafe` | networking_srv6_agent/agent/dataplane.py:1490-1601 | between the calls of any run, every route of a steer table is under a steer rule and, unless sealed, its domain may reach its first segment, if no steered VM is without an address |
| `SyncSafety.GoneKeepsSteerSafe` | networking_srv6_agent/agent/dataplane.py:1645-1649 | a domain that goes leaves the other domains' steer tables reachable |
| `SyncSafety.SyncSafeIff` | networking_srv6_agent/agent/dataplane.py:1721-1788 | a full sync of a safe kernel, whatever devices are known, leaves every VRF safe if and only if each wanted prefix it could not install holds no unsealed old route towards a SID the payload does not need |
| `SyncSafety.RunSafeIff` | networking_srv6_agent/agent/dataplane.py:1310-1802 | from a safe kernel every state a run of messages goes through, its last too, is safe if and only if each full sync of the run, on the kernel it found, met the condition of `SyncSafety.SyncSafeIff` |
| `SyncSafety.KnownRunIsSafe` | networking_srv6_agent/agent/dataplane.py:1310-1802 | a run whose full syncs know the devices of their wanted routes is safe in every state |
| `SyncSafety.SyncMayStrand` | networking_srv6_agent/agent/dataplane.py:1401-1402 | a payload, a kernel and the kernel after the sync, where the old route of a prefix with no device loses its SID rule |
| `Sync.HistoryIndependent` | networking_srv6_agent/agent/dataplane.py:1721-1788 | with devices known and tables enough, whatever was there before: one encap route for each remote prefix and none else, exactly the SID rules those and the steer routes need, and each steered VM's routes |
| `Sync.InstalledIsEncoding` | networking_srv6_agent/agent/dataplane.py:1361-1419 | the route of a prefix is the encoding of that prefix's entry in the payload |
| `SyncSafety.SidRuleIff` | networking_srv6_agent/agent/dataplane.py:1702-1719 | with every device known and one route a prefix, the domain's VRF has a SID rule if and only if an unsealed route of the VRF or of a claimed steer table starts with its SID |
| `Sync.ResyncChangesNothing` | networking_srv6_agent/agent/dataplane.py:1490-1601 | if the first full sync gave every VM a table and no two VMs behind one gateway share an address nor is any without one, a second of the same payload, whatever devices are known, asks for the same VMs, gives each the same table back and leaves the kernel as it is |
| `Updates.HistoriesAgree` | networking_srv6_agent/agent/dataplane.py:1721-1788 | two kernels with different pasts agree on a domain once both synced it |
| `TePaths.PathsForDomain` | networking_srv6_agent/db/te_db.py:321-359 | the maps hold each path of the domain under its source and destination, and nothing else, whatever the row order |
| `TePaths.TransitSids` | networking_srv6_agent/services/plugin.py:1041-1074 | None if and only if a waypoint is dead, or registered neither as a host nor in the topology file, or has no SID in the encoding; otherwise each waypoint's own address in usid mode and its End SID else, in order |
| `TePaths.AttachSegments` | networking_srv6_agent/services/plugin.py:1115-1230 | every route gets the answers of all its sources and source VMs |
| `TePaths.Precedence` | networking_srv6_agent/services/plugin.py:1115-1230 | for every ingress, source VM and route, the list pushed is that of the first of the ranks VM+port, VM+host, node+port, node+host, port, host that has a path, else direct; a winner with no waypoint, with one that is dead or not registered, or from a source that is not, is direct and never gives way |
| `TePaths.AttachedAreNamed` | networking_srv6_agent/services/plugin.py:1041-1230 | every waypoint list a route carries, for any ingress and any source VM, is that of a stored path from that source to the route, each waypoint alive and registered |
| `Shown.ResolveTePath` | networking_srv6_agent/services/plugin.py:1243-1306 | the method computes what the lemmas below are about |
| `Shown.EndsAre` | networking_srv6_agent/services/plugin.py:1233-1277 | a path ends at the host it names, or where the port it names is bound, and starts so too |
| `Shown.ShownMeans` | networking_srv6_agent/services/plugin.py:1243-1306 | a path is active if and only if its destination and any source it names are bound to registered, different nodes, every waypoint is alive, registered and has a SID, and the domain has a function id; its list is then the waypoints' SIDs but for leading ones that are the source, does not begin with the source, and ends at the destination's own SID for the domain |
| `Shown.ShownIsPushed` | networking_srv6_agent/services/plugin.py:1256-1268 | the encoded list shown for a path with a source is the one its ingress pushes for every route the path wins |
| `Shown.DeadPathIsDirect` | networking_srv6_agent/services/plugin.py:1061-1063 | a path over a dead node, or one nobody registered, shows as degraded, and where it wins the packet goes direct |
| `RouteLookup.LookupIsRight` | networking_srv6_agent/agent/dataplane.py:1292-1308 | after a sync a packet of a VM behind the node takes exactly one route: the encoding of the payload's list for that node and VM |
| `RouteLookup.EndToEnd` | networking_srv6_agent/services/plugin.py:1115-1230 | from the stored paths to the packet: it takes the route that sends it over the winner's waypoints, if they are all alive and registered, and else the direct one; and the direct one too if there is no path |
| `PairView.Pairs` | networking_srv6_agent/services/te_reopt.py:61-83 | a pair for each resolved key, named by its first entry, with its sum on each link and the rate that arrives, or its largest link |
| `ReoptPass.Used` | networking_srv6_agent/services/te_reopt.py:206-222 | every link holds its measured load less the pair's own, plus what all other pending pairs reserve there |
| `ReoptPass.Hottest` | networking_srv6_agent/services/te_reopt.py:178-179 | the link with the largest load for its capacity, of two alike the smaller |
| `ReoptPass.Largest` | networking_srv6_agent/services/te_reopt.py:243-247 | the pair with the largest rate, of two alike the one with the smaller ports |
| `ReoptPass.RoomIs` | networking_srv6_agent/services/te_reopt.py:298-315 | one path more is allowed if and only if there are fewer than te_auto_max_paths, and the VM is steered on its node already or leaves the VMs there within te_auto_max_rules_per_host |
| `ReoptPass.FitsIs` | networking_srv6_agent/services/te_reopt.py:263-268 | a path fits if and only if each hop, with the pair on it, stays within te_auto_fit of its capacity |
| `ReoptPass.HopsAre` | networking_srv6_agent/services/te_reopt.py:332-339 | a stored path is judged on the links from where its source was measured, or else is bound, over its waypoints to where its destination was, as far as they are known |
| `ReoptPass.ViaIsWhole` | networking_srv6_agent/services/plugin.py:1495 | between its ends the stored list is the whole path |
| `Covering.DecidesIs` | networking_srv6_agent/services/te_reopt.py:86-106 | a pair is covered by exactly the users' paths that have a rank in the order of `TePaths.Precedence` for it |
| `Covering.UncoveredIsFree` | networking_srv6_agent/services/te_reopt.py:86-106 | where no user's path covers a pair none decides its route, and the pair's own path, once stored, does |
| `ReoptMemory.DampedPrune` | networking_srv6_agent/services/te_reopt.py:164-169 | forgetting moves at or before the hold-down loses nothing that still holds a pair down |
| `ReoptMemory.DampedStep` | networking_srv6_agent/services/te_reopt.py:256-257 | an action that passes the hold-down test is at least the hold-down after every earlier one on its pair |
| `ReoptMemory.ReservePlace` | networking_srv6_agent/services/te_reopt.py:262-283 | a placement that passes the what-if check leaves every link within te_auto_fit, reservations and measured load together |
| `ReoptMemory.ReservePrune` | networking_srv6_agent/services/te_reopt.py:170-172 | expiry never raises a reservation |
| `ReoptMemory.ReservedPrune` | networking_srv6_agent/services/te_reopt.py:170-172 | expiry keeps the reservation of every pair's newest placement within link_state_window |
| `ReoptMemory.ExamIdle` | networking_srv6_agent/services/te_reopt.py:344-345 | an idle spell covers every examination since the one that began it |
| `ReoptMemory.AfreshStep` | networking_srv6_agent/services/te_reopt.py:131-144 | a link is judged again only on samples newer than every earlier pass's moves off it |
| `Reopt.TeReoptimiser.constructor` | networking_srv6_agent/services/te_reopt.py:112-121 | an empty memory is sound |
| `Reopt.TeReoptimiser.Congested` | networking_srv6_agent/services/te_reopt.py:131-144 | exactly the links whose last samples are all present, all above the mark and all newer than the last move |
| `ReoptPass.FindPath` | networking_srv6_agent/services/te_reopt.py:262-268 | the canonical path if the pair fits on it; None if and only if no path has room or the canonical one would leave a link too full |
| `Reopt.TeReoptimiser.Judge` | networking_srv6_agent/services/te_reopt.py:331-360 | a path is due if and only if its pair has idled long enough, or is busy and every default link would stay at or below the low mark with it on; the idle spell is kept, begun or ended as its rate against the floor of its links says |
| `Reopt.TeReoptimiser.LookAt` | networking_srv6_agent/services/te_reopt.py:326-371 | released if and only if it is due and its pair is not held down; the whole state after it |
| `Reopt.TeReoptimiser.Release` | networking_srv6_agent/services/te_reopt.py:317-377 | every automatic path is looked at once, unless the budget is spent; idle spells of paths that are gone are forgotten |
| `Reopt.TeReoptimiser.TryPair` | networking_srv6_agent/services/te_reopt.py:250-285 | held down if and only if the memory it finds holds the pair down; else at the caps if and only if the paths counted then leave no room; else without room if and only if no path can be chosen; else the chosen path is stored and remembered, or a new one is refused by the table; the whole state after it; a stored row, between the pair's ends, runs over exactly the links reserved for it |
| `Reopt.TeReoptimiser.SteerPairs` | networking_srv6_agent/services/te_reopt.py:224-296 | the largest candidate not tried next, while the link's load less what was moved off it is above the low mark; left with one pair only, light enough, with every candidate tried, or with the budget spent |
| `Reopt.TeReoptimiser.SteerLinks` | networking_srv6_agent/services/te_reopt.py:178-201 | a link is come to when every hotter one is left, with its load less each pair the pass has moved off it; all congested links are left unless the budget is spent |
| `Reopt.TeReoptimiser.Check` | networking_srv6_agent/services/te_reopt.py:146-201 | a pass is a run of such looks and tries from the memory it had, refreshed, to the one it has and the paths stored, over exactly the fabric it read; its log is that of the run; every pair it stored has a row that runs over exactly the links reserved for it; and over any run of passes the memory stays sound: two actions on one pair at least the hold-down apart, no link over-committed, the newest placement of each pair reserved for link_state_window and nothing remembered for longer, every placement fits and avoids dead and congested links and user paths, every idle release rests on a long enough spell, every placement on samples newer than earlier passes' moves |
| `ReoptRun.PassIsSound` | networking_srv6_agent/services/te_reopt.py:146-296 | any run of looks and tries, from any sound memory, leaves a sound one |
| `ReoptRun.ChosenIsOk` | networking_srv6_agent/services/te_reopt.py:262-283 | a chosen path joins the pair's nodes off dead and congested links and leaves each of its links within te_auto_fit, reservations and measured load together |
| `ReoptRun.AllPinned` | networking_srv6_agent/services/plugin.py:1480-1510 | whatever else a pass does after storing a pair's path, at its end a row of the pair is stored that runs over exactly the links reserved for it at its rate |
| `ReoptCaps.ChangesAreLogged` | networking_srv6_agent/services/te_reopt.py:146-377 | a pass takes at most te_reopt_max_moves actions, and no stored path is made, changed or dropped without one on its pair |
| `ReoptCaps.CapBound` | networking_srv6_agent/common/config.py:181-184 | a pass ends with exactly the automatic paths its moves found and those it made: at most what is left of the budget, and for each congested link at most what the maximum left when the moves began |
| `ReoptCaps.OverrunNeeds` | networking_srv6_agent/common/config.py:181-184 | whoever ends above the maximum had two congested links, the maximum not reached when the moves began, and a budget larger than what it left |
| `ReoptCaps.RulesBound` | networking_srv6_agent/services/te_reopt.py:298-315 | for one link of a pass: the VMs of a node among the paths read and those moved for that link stay within te_auto_max_rules_per_host, unless the paths read had more already; other links of the pass are not in this count |
| `ReoptCaps.RulesGrowth` | networking_srv6_agent/common/config.py:185-190 | the moves of a whole pass take no steered VM off a node, and it gains at most what is left of the budget, and for each congested link at most what is left of te_auto_max_rules_per_host over the measured steered VMs and of te_auto_max_paths over the paths read, if every VM measured on it is measured nowhere else |
| `ReoptOverrun.OverrunIff` | networking_srv6_agent/services/te_reopt.py:178-304 | a pass of the controller, from something it can read, can end above te_auto_max_paths if and only if at least two links are congested, its moves find the maximum not reached, and the budget left exceeds what the maximum leaves |
| `ReoptOverrun.RulesOverrunIff` | networking_srv6_agent/services/te_reopt.py:178-315 | a pass can take a node from within te_auto_max_rules_per_host to above it if and only if both the budget left and, over all congested links, what the two maxima leave each, exceed what the node may still take; with every steered VM measured: r > 0, budget > r and links * min(r, m) > r, for r and m what the two maxima leave |
| `ReoptOverrun.MostIsReached` | networking_srv6_agent/services/te_reopt.py:146-315 | for any caps, budget, number of congested links, stored paths and steered VMs with room left: a fresh controller, a reading and a pass of it that adds as many paths, and as many VMs on one node, as the bounds allow |
| `OverrunReading.TightReads` | networking_srv6_agent/services/te_reopt.py:131-177 | that pass is read from measurements: one full sample for each congested link, one entry for each VM pair on a link |
| `Agent.Node.EnsureDomain` | networking_srv6_agent/agent/dataplane.py:699-746 | whatever fails, a domain is recorded only with its VRF there and its table sealed |
| `Agent.Node.DeleteDomain` | networking_srv6_agent/agent/dataplane.py:768-821 | the recorded function id goes, the caller's only for a domain never recorded |
| `Agent.Agent.ApplyDomain` | networking_srv6_agent/agent/agent_extension.py:489-555 | retired, dormant or programmed as the payload and the local ports say; between syncs a programmed domain stays programmed; a domain newly recorded, or a function id newly in the kernel, is logged as programmed |
| `Agent.Agent.CollectKernelOrphans` | networking_srv6_agent/agent/agent_extension.py:344-367 | afterwards the kernel holds only function ids of wanted domains |
| `Agent.Agent.DoSyncState` | networking_srv6_agent/agent/agent_extension.py:212-267 | without a reply nothing changes; with one the time is kept, the sync logged and nothing known that the reply does not name, whatever fails; without failures now, whatever failed before, from any kernel and any memory whose records name the domains' function ids: exactly the domains with a network are known and those without a local port dormant, and the kernel converges if and only if what is found is repairable; a consistent memory always is, and a second sync changes nothing |
| `AgentMemory.ApplyStep` | networking_srv6_agent/agent/agent_extension.py:262-267 | applying one payload, whatever the memory, leaves its domain as the payload and what was held say and disturbs no other |
| `AgentMemory.RepairsIff` | networking_srv6_agent/agent/agent_extension.py:212-342 | a sync converges if and only if of each domain that should not be here nothing is held but what applying its payload takes down, and nothing is recorded that is not wanted |
| `AgentMemory.ConsistentRepairs` | networking_srv6_agent/agent/agent_extension.py:212-342 | a memory that agrees with the kernel is repairable |
| `AgentMemory.LeakStays` | networking_srv6_agent/agent/agent_extension.py:321-342 | a VRF behind a domain remembered as dormant outlives a sync and is as it was for the next |
| `AgentMemory.LeakIsThere` | networking_srv6_agent/agent/agent_extension.py:321-342 | a node with one dormant domain whose VRF is still there: it meets the hypotheses of `AgentMemory.LeakStays`, and a sync leaves it as it is |
| `AgentMemory.ConvergedIsUnique` | networking_srv6_agent/agent/agent_extension.py:212-267 | what a sync converges to is a function of the reply and the local ports |
| `AgentMemory.DeleteStep` | networking_srv6_agent/agent/agent_extension.py:272-286 | dropping tombstones an hour old loses no deletion still within the hour |
| `Agent.Agent.HandleUpdated` | networking_srv6_agent/agent/agent_extension.py:574-593 | a late update of a deleted domain changes nothing; any other has its domain applied and logged as programmed if it stays on or belongs here, and a sync follows if and only if it switched the encoding |
| `Agent.Agent.HandleRoutes` | networking_srv6_agent/agent/agent_extension.py:595-627 | nothing for a dormant domain; for an unknown one a sync, unless one succeeded within the holdoff; for a programmed one its routes are logged as written and nothing else changes |
| `Agent.Agent.HandleDeleted` | networking_srv6_agent/agent/agent_extension.py:629-642 | the domain leaves memory, dataplane and kernel, nothing else does, and its id is remembered; of the ids remembered before exactly those younger than TOMBSTONE_SECONDS still are |
| `Agent.Agent.HandlePort` | networking_srv6_agent/agent/agent_extension.py:647-693 | the gateway port is logged as written for exactly the programmed domains with the network, if it has a local VLAN; a port of a dormant domain's network has it synced; one of a network nobody has, synced unless one succeeded within the holdoff |
| `Agent.Agent.SyncUnlessRecent` | networking_srv6_agent/agent/agent_extension.py:695-712 | a sync, unless one succeeded within the holdoff |
| `Agent.Agent.Handle` | networking_srv6_agent/agent/agent_extension.py:574-693 | every message is answered as its kind asks, from any state and with any failures; what it newly records or leaves in the kernel it logs as programmed now |
| `Agent.Agent.Run` | networking_srv6_agent/agent/agent_extension.py:574-712 | for any interleaving of messages, port events, stale replies and failures that come and go: each message is answered in its turn, every deletion is logged, everything newly programmed is logged, tombstoned ids are neither known nor programmed, no deleted domain is programmed again for TOMBSTONE_SECONDS, and unasked syncs keep their distance |
| `AgentRuns.WantedIsLatest` | networking_srv6_agent/agent/agent_extension.py:230-243 | of a reply count the domains not deleted here, each with its last payload |
| `AgentRuns.UpdateSettles` | networking_srv6_agent/agent/agent_extension.py:574-593 | without failures, from a consistent memory: an update leaves its domain known, recorded and in the kernel if it belongs here or was programmed already, dormant if it has a network all the same, and gone otherwise; nothing of another domain changes |
| `AgentRuns.AnswerKeepsTidy` | networking_srv6_agent/agent/agent_extension.py:574-712 | the answer to any message, without failures and with a function id to each domain, keeps memory and kernel in agreement |
| `AgentRuns.RunStaysTidy` | networking_srv6_agent/agent/agent_extension.py:574-712 | over any run without failures memory and kernel agree at every message, and every resync that gets a reply ends converged |
| `Registry.Locators.CheckUsid` | networking_srv6_agent/services/plugin.py:967-990 | accepts exactly a /48 with a node C-SID of the Global ID Block in the block of every other /48 |
| `Registry.Locators.ClaimLocator` | networking_srv6_agent/services/plugin.py:1900-1939 | refused if and only if a fabric node or a live host overlaps; the overlapping dead hosts before the first that refuses lose their rows, all of them if none does, and nobody else |
| `Registry.Locators.Register` | networking_srv6_agent/services/plugin.py:1961-1978 | registered if and only if the locator is usable -- under usid a /48 with a node C-SID of the Global ID Block in the block of every other /48 -- and no other fabric node's or live host's overlaps it; stored then and reported as changed exactly when it is; an unusable one leaves the rows as they were; the registered locators stay pairwise disjoint |
| `Registry.Locators.Run` | networking_srv6_agent/services/plugin.py:1900-1978 | after any run of claims, takeovers from dead hosts included: each is answered as the rows it finds say, one that meets the condition is in after its turn, and the locators are pairwise disjoint, apart from the fabric's nodes, and each as it was or as claimed |
| `Registry.NeighboursAreApart` | networking_srv6_agent/services/plugin.py:1915-1924 | fc00:0:1::/48 and fc00:0:2::/48 are locators that share no address |
| `Registry.CheckRanges` | networking_srv6_agent/db/srv6_db.py:89-114 | accepts the ranges if and only if all lie in the Local ID Block |
| `Registry.Pool.Sync` | networking_srv6_agent/db/srv6_db.py:117-150 | the pool is the ids of the configured ranges, ends included, and those still held, and no holder changes |
| `Registry.Pool.Begin` | networking_srv6_agent/db/srv6_db.py:152-170 | an allocation begins with the free ids it sees, in any order, and is refused if and only if there is none |
| `Registry.Pool.Step` | networking_srv6_agent/db/srv6_db.py:164-178 | one compare-and-swap of any interleaving: it succeeds exactly when the id is still free and the domain holds none, every id given stays its domain's, an id taken or gone is passed over for the next, and the allocation ends only with none left |
| `Registry.Pool.Release` | networking_srv6_agent/db/srv6_db.py:181-192 | frees exactly the domain's own id |
| `Registry.SidIsUnique` | networking_srv6_agent/common/sid.py:67-80 | a domain's SID gives back its node and function, and is no node's End SID or uN |
| `Registry.SidNamesDomain` | networking_srv6_agent/db/srv6_db.py:39-59 | two SIDs are equal if and only if node and domain are |

## Left out

- RulesGrowth: about a node whose measured VMs are measured there only; a VM that two entries place on two nodes is checked on the one and counted on the other.
- RulesOverrunIff: about such nodes too.
- Forwarding of full SIDs in encap mode: only the microSID encoding, with its full-SID fallback, is executed by a modelled network.
- The privileged commands and their text: each is one atomic effect on the kernel state.
- Commands that fail in the middle of a route message: `Dataplane` models the fault-free calls, `Agent` the failures that abort a domain.
- Gateway ports, firewall, ARP and ND flows, sysctls, MTU warnings, the edge filter's rules: the filter is only a predicate that covers an address or not.
- The route and steering work inside `Agent`: there a domain is its VRF and its record; its routes are `Dataplane`'s, and the locators they are encoded with a parameter.
- Addresses, prefixes and ranges as text, and the topology file.
- Other writers of the path table during a pass of the re-optimisation: only the collision that makes storing a new path fail. Between passes the table may change in any way.
- The order of a database query and of dictionary iteration, where the source fixes none: any order is allowed. With two hosts measured for one source port the source keeps the last, the model either.
- The database's transactions, retries and migrations; a claim and its write are one step.
- The early return of the server for a domain with no path, which gives the same routes.
- The measurements behind the re-optimisation: series, dead links, measured load and the pair entries are inputs, rates not negative, and the clock does not run backwards.
- Liveness of nodes and links, link-state views, quotas, the dashboard and the command line.
