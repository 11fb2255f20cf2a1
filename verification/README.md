# A verified model of the lightscale control plane

lightscale is a WireGuard gateway: users connect as peers, services get virtual addresses, and policy
rules decide who may reach what. Its state lives in an SQLite store. After each committed change a
subscriber rebuilds a denormalised index, publishes it, closes the live flows the new index denies, and
brings the WireGuard peers and the addresses of the network stack in step. Every packet and connection
is decided on the index alone.

This project models that machinery in Dafny 4.11 and proves what it keeps true over whole runs.
`dafny verify dfyconfig.toml` verifies all of it; the proofs are cut to fit `--resource-limit 2000000`.

How the files build on each other:

- `Wrappers`, `Text`, `Keys`, `Origin`: the Go string, number, hex and address helpers, and service origins.
- `Schema`, `StoreSpec`, `StoreTx`, `Store`: the tables and their invariant; each store operation as guards
  and an effect; the transaction bodies statement by statement, proved against those; the store object with
  its all-or-nothing transactions and notifications.
- `StoreLaws`: what each of these operations means, told by the rows before and after it and by the invariant.
- `Index`, `Resolver`, `Refinement`, `PolicyEdits`, `PolicyNames`: the multi-read build of the index, the
  decisions on it, the proof that they are the decisions of the tables, and what edits can change.
- `FlowTable`, `Admission`, `UdpSessions`: live flows, and two concurrent protocols as state machines whose
  runs interleave the atomic steps in any order.
- `Builds`, `ControlPlane`, `Notifications`: a build as the separate queries it sends; store, notifier and
  connection handlers in one machine, with commits between the queries; and notifications that overlap.
- `WgDevice`, `WgServer`, `PeerStatus`, `PeerDump`, `Listeners`, `Relay`: the device protocol, the peer diff,
  the dump parser, the dump it reads, the address reconciler and the packet relay.
- `Allocator`, `ApiAddresses`, `Ports`, `ServicesApi`, `ResolverCache`, `Backends`: address allocation, port
  lists, the service handlers, the backend resolver and what the dial failure paths do to it.
- `Daemon`: the subscriber over all of these, and the run theorems.

Conventions. Go maps and query rows come in no particular order: loops pick any element. `netip.ParseAddr`
and `netip.ParsePrefix` are parameters. Time, name lookups, containers and probes are what one call happens
to see of the world. Concurrency is modelled by state machines whose steps are the critical sections.

Where the code does less than one might expect, it is modelled as it is:

- Re-adding a policy for an existing pair keeps its old id, so the newest edit does not win against a rule
  inserted later (`PolicyEdits.UpsertDecides`; `PolicyEdits.ReaddedRuleLoses` is such a table).
- A handler that checked an old index can add its flow after the reap that would have closed it
  (`Admission.StaleAdmissionHappens`). Such a flow does not outlive the next reap (`Admission.StaleFlowsEnd`),
  and without one no live flow is denied (`ControlPlane.SettledFlowsAllowed`).
- Two commits may run their notifications at once, and the older index can be stored last
  (`Notifications.OlderIndexStays`); `Notifications.PublishedIsCurrentIff` says when the index is current.
- `ApplyPeers` skips a peer it already recorded, and writes the first line of a peer whose preshared key
  does not decode; its contract has both exact conditions.
- `reconcile` skips a service it already recorded: a service moved to another address is missed
  (`Listeners.MovedServiceIsMissed`). The stack carries exactly the service addresses if and only if each
  address that stays recorded is still asked for by some service and what each service that stays asks for
  is the stack's own, stays recorded, or is asked for by a service not yet recorded (`Listeners.WillServe`,
  which only looks at the record before the call). Two services that swap addresses meet that
  (`Listeners.SwappedServicesAreServed`).
- `Allocate` on 255.255.255.255/32 starts its search at the invalid address and returns the text
  `invalid IP`; once that text is taken, the search there does not end.
- Two accepted origin specs can share a cache key (`Origin.CacheKeyCollision`). `Origin.CacheKeySharedIff`
  says exactly which do: container specs whose value and network, joined by a NUL byte, have a NUL at some
  other inner place with no blanks at the edges of the two parts it makes.
- `SafeBackendAddr` refuses an IPv4-mapped IPv6 address like the IPv4 address it stands for, but not
  ::ffff:0.0.0.0, and refuses :: only without a zone (`Origin.Forbidden` gives the ranges).
- `formatPorts` prints an empty list as `all`, which `parsePorts` refuses.

## Model

| member | source | states |
|---|---|---|
| `StoreSpec.ConsistentAfter` | daemon/store/store.go:80-96 | every operation, successful or failing, keeps the store invariant: unique names per name space, unique addresses and hostnames, one rule per pair, ends that exist, sound ids |
| `StoreSpec.RunConsistent` | daemon/store/migrations/0001_initial.sql:1-69 | the invariant holds after every run of operations |
| `StoreSpec.InsertServiceKeeps` | daemon/store/services.go:38-83 | a service whose name, address and hostname are free, with sound ports, keeps the invariant |
| `StoreSpec.UpdateServiceKeeps` | daemon/store/services.go:95-156 | a field-by-field service update keeps the invariant |
| `StoreSpec.DeleteServiceKeeps` | daemon/store/services.go:158-172 | deleting a service with its ports, memberships and rules keeps the invariant |
| `StoreSpec.CreateUserKeeps` | daemon/store/users.go:33-69 | creating a user keeps the invariant |
| `StoreSpec.DeleteUserKeeps` | daemon/store/users.go:111-127 | deleting a user and every rule on it keeps the invariant |
| `StoreSpec.DeleteUserGroupKeeps` | daemon/store/groups.go:84-100 | deleting a user group and every rule on it keeps the invariant |
| `StoreSpec.DeleteServiceGroupKeeps` | daemon/store/groups.go:244-258 | deleting a service group and every rule on it keeps the invariant |
| `StoreSpec.CreatePolicyKeeps` | daemon/store/policies.go:29-86 | inserting or upserting a rule keeps one rule per pair and rule ends that exist |
| `StoreSpec.StepGrows` | daemon/store/users.go:77-109 | a step only adds rows with ids beyond the counter, and no user that stays gets other keys or another address |
| `StoreSpec.CommittedIdNeverReused` | daemon/store/migrations/0001_initial.sql:1-69 | an id that some run deleted is given out by no later run |
| `StoreLaws.SuccessMeans` | daemon/store/store.go:80-96 | each of the eighteen operations, when it succeeds, does to rows, rules, memberships and ports exactly what it says and answers with the id of its row: a created row shows every input under a new id, an update changes exactly the named columns, an added membership is there and a removed one is not, a deleted row is gone, and nothing else moves; a failing one changes nothing |
| `StoreLaws.DeletedIsForgotten` | daemon/store/users.go:111-127 | deleting a user, user group, service or service group succeeds exactly when there is one, and then no table, rule end, membership or port names it, while everything that does not name it stays |
| `StoreLaws.DeletedUserIsCutOff` | daemon/store/users.go:111-127 | the old address of a deleted user is allowed no service and no peer, in either direction |
| `StoreLaws.DeletedServiceIsCutOff` | daemon/store/services.go:158-172 | nobody is allowed the old address of a deleted service |
| `StoreLaws.UserRefused` | daemon/store/users.go:33-69 | creating a user is refused for a missing input, or because the row would break the name space or share an address, with the error of the first of these, and for nothing else |
| `StoreLaws.UserUpdateRefused` | daemon/store/users.go:77-109 | updating a user is refused exactly when there is none or the edited row would break the name space |
| `StoreLaws.UserGroupRefused` | daemon/store/groups.go:24-47 | likewise for creating a user group |
| `StoreLaws.UserGroupUpdateRefused` | daemon/store/groups.go:55-82 | and for updating one |
| `StoreLaws.ServiceRefused` | daemon/store/services.go:38-83 | creating a service is refused for a missing input, an origin that does not validate, a row that would break the invariant, or ports that are not proper, in this order |
| `StoreLaws.ServiceUpdateRefused` | daemon/store/services.go:95-156 | updating a service succeeds exactly when there is one, its new origin validates, its new ports are proper and the edited row keeps the invariant |
| `StoreLaws.PortsRefused` | daemon/store/services.go:310-335 | a port list is refused exactly when a port is out of range or listed twice, with the error of the first bad one |
| `StoreLaws.PolicyStored` | daemon/store/policies.go:29-86 | afterwards there is exactly one rule between the two ends, with this action, and every other rule keeps its id and content |
| `StoreTx.CheckNameAvailable` | daemon/store/namespace.go:16-44 | the scan over both tables of a name space fails exactly when another row bears the name |
| `StoreTx.CheckIpAvailable` | daemon/store/users.go:195-211 | fails exactly when a user or another service holds the address |
| `StoreTx.CheckHostnameAvailable` | daemon/store/services.go:337-350 | fails exactly when another service holds the hostname |
| `StoreTx.CreateUser` | daemon/store/users.go:33-69 | the transaction body ends in the specified tables and id, or the specified error |
| `StoreTx.UpdateUser` | daemon/store/users.go:77-109 | same, for the edited user row |
| `StoreTx.DeleteUser` | daemon/store/users.go:111-127 | same, with rules on either end and memberships gone |
| `StoreTx.DeleteUserGroup` | daemon/store/groups.go:84-100 | same |
| `StoreTx.AddUserToGroup` | daemon/store/groups.go:130-143 | same, both ends must exist, repeating is no error |
| `StoreTx.ReplaceServicePorts` | daemon/store/services.go:310-335 | the port loop ends with exactly the listed ports of the service, or with the error of the first bad one |
| `StoreTx.CreateService` | daemon/store/services.go:38-83 | the transaction body, ports included, ends as specified |
| `StoreTx.UpdateService` | daemon/store/services.go:95-156 | same, with the row edited field by field |
| `StoreTx.DeleteService` | daemon/store/services.go:158-172 | same |
| `StoreTx.DeleteServiceGroup` | daemon/store/groups.go:244-258 | same |
| `StoreTx.AddServiceToGroup` | daemon/store/groups.go:290-303 | same |
| `StoreTx.CreatePolicy` | daemon/store/policies.go:29-86 | select, then update in place under the old id or insert under a new one |
| `StoreTx.DeletePolicy` | daemon/store/policies.go:88-103 | same |
| `StoreModel.Store.Perform` | daemon/store/store.go:80-96 | a failing operation changes no table and tells nobody; a success commits and tells every subscriber exactly once |
| `StoreModel.Store.Notify` | daemon/store/store.go:74-78 | every subscriber is called once, in order of subscription |
| `StoreModel.Broadcast` | daemon/store/store.go:74-78 | one delivery per subscriber, each of the same kind |
| `StoreModel.ChangeIsOfKind` | daemon/store/store.go:80-96 | the kind the subscribers hear is that of the table that changed: the others are as they were, but for links to an entity that is gone |
| `PolicyIndex.Build` | daemon/policy/index.go:62-144 | whatever commits fall between its separate reads, each part is what its query saw and the address and group maps stay mutually inverse |
| `PolicyIndex.IndexUsers` | daemon/policy/index.go:91-98 | users by id and by address are mutually inverse and are exactly the rows read |
| `PolicyIndex.IndexGroups` | daemon/policy/index.go:113-126 | a group is listed for a user exactly when the user is listed in the group |
| `PolicyIndex.IndexRules` | daemon/policy/index.go:136-144 | the rule list holds every rule once |
| `Resolver.WinnerIsGreatest` | daemon/policy/resolver.go:104-126 | the covering rule the loop keeps has the greatest id; none is found exactly when none with an id from 0 up covers |
| `Resolver.EvaluateExplicit` | daemon/policy/resolver.go:104-126 | the loop over the rules finds the winner's decision |
| `Resolver.CheckService` | daemon/policy/resolver.go:19-35 | the verdict and the matched user and service for every source, address, port and protocol |
| `Resolver.VerdictNamesEnds` | daemon/policy/resolver.go:19-35 | the verdict names whoever the two addresses belong to |
| `Resolver.CheckPeer` | daemon/policy/resolver.go:37-57 | an explicit rule decides, or else LAN sharing |
| `Resolver.ShareLanGroup` | daemon/policy/resolver.go:137-149 | true exactly when some LAN-mode group of the source holds the destination |
| `Resolver.SharesLanSymmetric` | daemon/policy/resolver.go:137-149 | LAN sharing is symmetric on every index ever built, torn or not |
| `Refinement.SomeRuleDecides` | daemon/policy/resolver.go:104-126 | when some rule applies, one of greatest id exists |
| `Refinement.ExplicitIsTableVerdict` | daemon/policy/resolver.go:104-126 | the loop over the rule list gives the verdict of the rule of greatest id in the table |
| `Refinement.IndexRefinesTables` | daemon/policy/resolver.go:19-35 | on an up-to-date index a service connection is allowed exactly when the committed tables allow it |
| `Refinement.IndexRefinesPeers` | daemon/policy/resolver.go:37-57 | likewise between users |
| `PolicyEdits.FreshRuleDecides` | daemon/store/policies.go:62-86 | a newly inserted rule decides every pair it covers |
| `PolicyEdits.FreshRuleFrame` | daemon/store/policies.go:62-86 | and changes no pair it does not cover |
| `PolicyEdits.UpsertDecides` | daemon/store/policies.go:50-61 | an upsert changes exactly the pairs its old id already decided |
| `PolicyEdits.ReaddedRuleLoses` | daemon/store/policies.go:50-61 | a rule added again, the newest edit of all, loses to a rule inserted after its first time |
| `PolicyEdits.InsertThenDeleteRestores` | daemon/store/policies.go:29-103 | inserting a fresh rule and deleting it restores every table; only the id counter moved |
| `PolicyEdits.DeleteUserFrame` | daemon/store/users.go:111-127 | deleting a user changes no decision between others |
| `PolicyEdits.DeleteUserGroupFrame` | daemon/store/groups.go:84-100 | deleting a user group changes no decision between users outside it |
| `PolicyEdits.DeleteServiceFrame` | daemon/store/services.go:158-172 | deleting a service changes no decision about other services, nor between users |
| `PolicyEdits.DeleteServiceGroupFrame` | daemon/store/groups.go:244-258 | deleting a service group changes no decision about services outside it |
| `PolicyNames.ResolveSubject` | daemon/api/policies.go:86-104 | a type and id are taken at their word, otherwise a name stands for the principal that bears it, or is not found exactly when none does |
| `PolicyNames.ResolveObject` | daemon/api/policies.go:106-134 | likewise for objects, services and service groups first |
| `PolicyNames.SubjectNamesAreExact` | daemon/api/policies.go:86-104 | the name of a principal stands for that principal and nothing else |
| `PolicyNames.ObjectNamesAreExact` | daemon/api/policies.go:106-152 | everything is named by its own name as an object if and only if it is no principal shadowed by a service or service group |
| `PolicyNames.NamedEndsExist` | daemon/api/policies.go:37-72 | a policy between ends found by name fails only for its action |
| `Flows.AdmittedPassesRecheck` | daemon/policy/flowtable.go:97-119 | a flow admitted by addresses passes the re-check by ids on the same index |
| `Flows.Allowed` | daemon/policy/flowtable.go:97-119 | the re-check by ids, through the addresses the index gives them |
| `Flows.FlowTable.Add` | daemon/policy/flowtable.go:61-67 | the id is one never issued before |
| `Flows.FlowTable.Remove` | daemon/policy/flowtable.go:69-73 | only that id leaves, and counts as removed once |
| `Flows.FlowTable.Snapshot` | daemon/policy/flowtable.go:42-59 | exactly the live flows, each once |
| `Flows.FlowTable.Collect` | daemon/policy/flowtable.go:75-90 | under the lock, exactly the denied flows are collected and deleted |
| `Flows.FlowTable.Reap` | daemon/policy/flowtable.go:75-95 | keeps exactly the allowed flows and closes each other one once, deleted and with the lock free, even if callbacks add flows; every id ever issued is live, removed or reaped in one way |
| `Admission.RunKeepsSound` | daemon/proxy/tcp.go:50-90 | in every interleaving a live flow passes the index its handler checked and that of the latest reap since it came in |
| `Admission.RevocationSafety` | daemon/runtime/daemon.go:111-118 | between notifications every live flow the published index denies is a stale admission; all are allowed if and only if the stale ones are |
| `Admission.StaleFlowsEnd` | daemon/policy/flowtable.go:75-95 | over every run, a live flow that the index of the next notification denies, stale or not, is gone once that notification is over and stays gone |
| `Admission.LiveWhileHandled` | daemon/proxy/tcp.go:77-90 | in every interleaving a flow is in the table exactly while the one handler that added it serves it and no reap has taken it out |
| `Admission.StaleAdmissionHappens` | daemon/proxy/tcp.go:50-90 | a concrete run leaves a deleted user's flow live with no notification in progress |
| `Builds.CurrentIff` | daemon/policy/index.go:62-144 | an index, torn or not, is the one the committed tables call for exactly when these would answer every query of its build as it was answered |
| `ControlPlane.SettledIsCurrent` | daemon/runtime/daemon.go:111-118 | wherever commits fell between the queries of any build, once every commit has been notified the published index is that of the committed tables |
| `ControlPlane.SettledFlowsAllowed` | daemon/runtime/daemon.go:111-118 | in every such state a live flow the committed tables deny is a stale admission |
| `ControlPlane.FlowAllowedByTables` | daemon/policy/flowtable.go:97-119 | on an up-to-date index the re-check of a flow decides as the committed tables do |
| `ControlPlane.NotifierNeverBlocked` | daemon/runtime/daemon.go:111-118 | in every state of every run the next step of the notifier is enabled, whatever the handlers are doing |
| `Notifications.PublishedIsCurrentIff` | daemon/store/store.go:74-96 | with any number of overlapping notifications, the published index is that of the committed tables exactly when these would answer every query of its build the same, and always when the build stored last began after the last commit |
| `Notifications.OlderIndexStays` | daemon/store/store.go:74-96 | a concrete run of two overlapping notifications ends with none in progress and the index still showing a deleted user |
| `UdpSessions.RunKeepsSound` | daemon/proxy/udp.go:67-162 | sessions and pumps name each other in every interleaving, and ids only grow |
| `UdpSessions.MappedIffOnePump` | daemon/proxy/udp.go:67-113 | a key is mapped exactly when one pump for it has not yet deleted it |
| `UdpSessions.TableIdsOwned` | daemon/proxy/udp.go:67-113 | every UDP id in the flow table belongs to a mapped session, to one being inserted, or to a pump between delete and remove |
| `UdpSessions.SessionsAreListed` | daemon/proxy/udp.go:96-112 | and the converse: in every interleaving the id of a mapped session is in the flow table exactly unless some reap took it out |
| `UdpSessions.PumpKeepsToItsSession` | daemon/proxy/udp.go:118-162 | a pump deletes and releases only its own session, and the exit for a missing session is never taken |
| `UdpSessions.UdpHandler.HandlePacket` | daemon/proxy/udp.go:53-113 | a packet the index does not allow changes nothing; another opens a session exactly when its key has none and the backend can be reached: the session is mapped under a newly issued id, that id is in the flow table as a UDP flow, a pump reads for it, and nothing else moves |
| `UdpSessions.UdpHandler.PumpTurn` | daemon/proxy/udp.go:118-133 | one turn of the loop finds its session: nothing changes and the exit for a missing one is not taken |
| `UdpSessions.UdpHandler.DeleteSession` | daemon/proxy/udp.go:152-156 | the pump's own session leaves the map and no other |
| `UdpSessions.UdpHandler.ReleaseFlow` | daemon/proxy/udp.go:157-161 | the pump's own id leaves the flow table and no other |
| `UdpSessions.UdpHandler.RemoveFlow` | daemon/proxy/udp.go:152-162 | both: the pump takes its own session and its own id with it |
| `WgDevice.AdditionSection` | daemon/wg/server.go:287-296 | the device reads the addition lines as one new peer with that key, preshared key and address, taking the address from any other |
| `WgDevice.RemovalSection` | daemon/wg/server.go:276-281 | the device reads the removal lines as that peer gone |
| `WgServerModel.WgServer.ApplyPeers` | daemon/wg/server.go:256-306 | for any map order, when no two users with a decodable key share key or address, the record stays in step if and only if every new preshared key decodes, and the device ends with exactly those users if and only if moreover no peer that stays was configured differently |
| `WgServerModel.EmitPeer` | daemon/wg/server.go:287-296 | the lines of one new peer, cut short after the first when its preshared key does not decode |
| `WgServerModel.CidrIsOneAddress` | daemon/wg/server.go:296-296 | the address a peer is allowed is its own text and the prefix length 32, which holds that address alone |
| `Keys.HexShows` | daemon/wg/server.go:358-364 | a key goes out as two hex digits a byte, the high half first |
| `WgServerModel.AddsOne` | daemon/wg/server.go:283-297 | one more section of text adds one more peer and keeps what the earlier sections did |
| `WgServerModel.SettledPeers` | daemon/wg/server.go:256-306 | the text's effect, seen from the users |
| `PeerStatusParser.ParsePeerStatus` | daemon/wg/server.go:162-244 | the line loop reads the dump as the fold of its lines |
| `PeerStatusParser.Compositional` | daemon/wg/server.go:162-244 | a dump cut before a `public_key` line is read piece by piece, so no attribute leaks to another peer |
| `PeerStatusParser.ReturnsIgnored` | daemon/wg/server.go:171-175 | carriage returns at the line ends change nothing |
| `PeerStatusParser.UnreadableKeySkipped` | daemon/wg/server.go:182-190 | a peer whose key does not decode is left out with all its lines, none of which reaches the peer before it |
| `PeerDump.DumpRoundTrip` | daemon/wg/server.go:162-244 | parsing what a device prints, its own lines first, gives back exactly its peers, every attribute in its place, for any device, any list of peers and any nanoseconds |
| `PeerDump.InterfaceLinesIgnored` | daemon/wg/server.go:183-241 | the lines a device prints of itself make no peer and change none |
| `PeerDump.FieldsMakePeer` | daemon/wg/server.go:183-241 | the printed fields of one peer, whatever its nanoseconds, read into a new one, make that peer |
| `PeerStatusParser.AdditionsRoundTrip` | daemon/wg/server.go:287-296 | reading the addition lines gives back exactly the added peers, in order |
| `Listeners.ListenerManager.Reconcile` | daemon/runtime/listeners.go:54-89 | for any map order: the stack ends with exactly the service addresses if and only if the record before the call allowed it; each service is recorded at its own address if and only if no recorded one changed it; those that stay keep their address and a new one gets its own |
| `Listeners.MovedServiceIsMissed` | daemon/runtime/listeners.go:73-77 | a service placed at one address and moved to another does not meet the condition |
| `Listeners.MoveOneService` | daemon/runtime/listeners.go:54-89 | and so the stack goes on carrying the old address |
| `Listeners.SwappedServicesAreServed` | daemon/runtime/listeners.go:73-77 | two services that swap addresses meet it, though neither is recorded at its own |
| `Listeners.ListenerManager.Follow` | daemon/runtime/listeners.go:54-89 | over any run of indexes each service stays recorded at the address it had when it was placed; the stack ends with exactly the addresses of the last index if and only if the record before it allowed that, and always when no service changed its address |
| `Listeners.ListenerManager.CloseAll` | daemon/runtime/listeners.go:99-106 | the stack is back to its own addresses |
| `Listeners.ListenerManager.DropUnwanted` | daemon/runtime/listeners.go:64-71 | exactly the unwanted services go, with their addresses |
| `Listeners.ListenerManager.PlaceMissing` | daemon/runtime/listeners.go:73-87 | every missing service is placed unless its address is unusable or taken |
| `RelayModel.Handle` | daemon/wg/relay.go:28-62 | a packet is taken exactly when it has 20 bytes, version 4, and a destination field, in network order, that is not the daemon's address and lies between network and broadcast address of the clients; a packet to the daemon is never taken; a taken one is injected exactly when its ends differ and the index lets them talk |
| `RelayModel.RelaySymmetric` | daemon/wg/relay.go:28-76 | without explicit rules a packet between two client addresses is injected exactly when the same packet with swapped addresses is |
| `RelayModel.RelayFollowsTables` | daemon/wg/relay.go:28-62 | on an up-to-date index the relay injects exactly the packets between two different addresses, the second a client other than the daemon, that the tables allow |
| `Allocator.LastAddr` | daemon/ipalloc/allocator.go:61-70 | the bit loop ends with network + 2^(32-bits) - 1 |
| `Allocator.PrefixRange` | daemon/ipalloc/allocator.go:32-34 | a prefix holds its address and is the 2^(32-bits) addresses from an aligned one on |
| `Allocator.Allocate` | daemon/ipalloc/allocator.go:11-49 | text that reads, most significant number first, as the least address strictly inside the prefix that is neither taken nor reserved, an error exactly when there is none, and it ends |
| `Allocator.DottedIff` | daemon/ipalloc/allocator.go:37-46 | the printed text of an address is the one text whose four decimal numbers between dots, each below 256 and without leading zeros, make that address |
| `Allocator.DottedInjective` | daemon/ipalloc/allocator.go:37-46 | distinct addresses print differently, so the text keys stand for addresses |
| `Allocator.NetworkIsLast` | daemon/ipalloc/allocator.go:32-34 | 255.255.255.255/32 is the one prefix whose network address has no successor |
| `Allocator.ContainsIsRange` | daemon/ipalloc/allocator.go:50-60 | membership in a prefix is the range from network to broadcast |
| `ApiAddresses.SettleAddress` | daemon/api/users.go:54-76 | the requested address if it lies in the subnet, or the least free one; refused exactly when there is no such address |
| `ApiAddresses.PickedMeans` | daemon/ipalloc/allocator.go:11-49 | a picked address lies strictly inside the subnet, nobody has it, no reserved entry parses to it, and none before it is like that |
| `ApiAddresses.RequestedInSubnet` | daemon/ipalloc/allocator.go:50-60 | a requested address is settled on exactly when it lies between network and broadcast address of the subnet |
| `ApiAddresses.AutomaticAddress` | daemon/api/users.go:54-100 | with an automatic address creating a user fails exactly when a service holds that address |
| `ApiAddresses.AutomaticAddressInSubnet` | daemon/api/users.go:54-76 | an automatic address would also have been accepted on request, by any parser that reads dotted decimal |
| `ApiAddresses.AutomaticServiceAddress` | daemon/api/services.go:73-92 | with an automatic address creating a service fails for the address exactly when a user holds it |
| `Ports.ParsePorts` | daemon/api/services.go:255-290 | the loop over entries; one bad entry refuses them all |
| `Ports.EntryMeans` | daemon/api/services.go:262-288 | one entry, with blanks around it and its protocol in any case, is read as the port it names, as both protocols when it names none, and refused exactly when its number is out of range or its protocol unknown |
| `Ports.ListMeans` | daemon/api/services.go:255-290 | a list of such entries is read as the ports they stand for, in order |
| `Ports.ParsedValid` | daemon/api/services.go:255-290 | every accepted list holds only ports the store takes |
| `Ports.FormatPorts` | cli/cli/service.go:400-409 | the joined labels, or `all` |
| `Ports.PrintParse` | daemon/api/services.go:255-290 | parsing undoes printing for any list of proper ports and any blanks after the commas |
| `Ports.PrintersRoundTrip` | cli/cli/service.go:400-409 | parsing undoes both printers |
| `Ports.ParsePrintParse` | daemon/api/services.go:255-290 | parse, print, parse equals parse |
| `Ports.AllIsRefused` | cli/cli/service.go:401-403 | the printed form of the empty list is refused |
| `ServicesApi.DecideCreate` | daemon/api/services.go:48-110 | the row a request asks for at the address it settles on, or a refusal exactly when there is no such row |
| `ServicesApi.HandleCreate` | daemon/api/services.go:48-115 | succeeds exactly when there is an address to settle on and the store takes the row there; then the new row shows every field of the request, the host name made of name and domain when none is given, exactly the listed ports, and that address; otherwise nothing changes |
| `ServicesApi.DecideUpdate` | daemon/api/services.go:132-197 | the update a partial request amounts to, given the row as it is |
| `ServicesApi.HandleUpdate` | daemon/api/services.go:132-204 | succeeds exactly when there is a row that shows the request, keeps the store invariant, has an origin that validates and ports that read, and leaves a host service a port; then each column the request names has its new value and the others their old ones, another kind of origin starting from nothing; otherwise nothing changes |
| `ServicesApi.RunKeepsHostPorts` | daemon/api/services.go:94-104 | after any run of requests every host service declares a port |
| `ServicesApi.HostServicesNeverOpen` | daemon/policy/resolver.go:58-68 | so nobody reaches an undeclared port of a host service |
| `ServicesApi.RunKeepsOrigins` | daemon/store/services.go:42-46 | every origin in the store is one validation accepts as it stands, after any run |
| `ServicesApi.UpdateKeepsHostPorts` | daemon/api/services.go:156-196 | a partial update never leaves a host service without ports |
| `Origin.ValidateIdempotent` | shared/origin/origin.go:43-78 | validating twice is validating once |
| `Origin.ValidateIff` | shared/origin/origin.go:43-78 | but for outer blanks and capitals in the kind, a spec is accepted exactly when its kind allows its value and network, kind by kind |
| `Origin.SafeIffNotForbidden` | shared/origin/origin.go:80-92 | an address is safe exactly when it lies in none of the loopback, link-local, multicast and unspecified ranges, given by their first and last addresses |
| `Origin.CacheKeySharedIff` | shared/origin/origin.go:39-41 | an accepted spec shares its key with another accepted one if and only if it is a container spec whose key can be cut in another place |
| `Origin.SameKeySameSpec` | shared/origin/origin.go:39-41 | so accepted specs with one key are equal unless it can |
| `Origin.CacheKeyInjective` | shared/origin/origin.go:39-41 | specs without NUL bytes, accepted or not, never share a cache key |
| `Origin.CacheKeyCollision` | shared/origin/origin.go:39-41 | two different accepted specs with one key |
| `ResolverCache.BackendResolver.Resolve` | daemon/proxy/resolver.go:83-175 | loopback for host origins only; otherwise, cached or not, the own name of the spec asked about or a text that parses to an address outside the forbidden ranges, unless its key can be cut in another place; for an ip origin always the latter; a cached answer is one worked out for the same key less than its time to live ago |
| `ResolverCache.BackendResolver.SelectEndpoint` | daemon/proxy/resolver.go:177-217 | the first safe address that answers the probe, or else the first safe one, or an error exactly when none is safe |
| `ResolverCache.SelectedIsChosen` | daemon/proxy/resolver.go:177-217 | a safe endpoint that answers wins over every other, the first such; else the first safe one; it fails exactly when none is safe |
| `ResolverCache.HostnameAnswer` | daemon/proxy/resolver.go:111-131 | a host name is dialled by its name, for 60 seconds, exactly when it has addresses and all of them are safe |
| `ResolverCache.ContainerAnswer` | daemon/proxy/resolver.go:133-175 | a container without network goes by its name, for 30 seconds, when that resolves, any other by the chosen endpoint, for 10 seconds, and it fails exactly when there is none |
| `ResolverCache.BackendResolver.StoreEntry` | daemon/proxy/resolver.go:229-233 | the entry expires its time to live after it was stored |
| `ResolverCache.FreshIsDialable` | daemon/proxy/resolver.go:111-175 | an answer worked out is the spec's own name or a safe address |
| `ResolverCache.InvalidateEvicts` | daemon/proxy/resolver.go:235-239 | invalidating a spec evicts the entry resolution would use for it if and only if validation leaves the spec as it is |
| `Backends.DialFailed` | daemon/proxy/tcp.go:66-77 | after any run of store operations, invalidating the origin of a service leaves no cached answer for it at any time |
| `Backends.Redial` | daemon/proxy/tcp.go:60-77 | so the next resolution works its answer out anew |
| `ResolverCache.HitIsForSameSpec` | daemon/proxy/resolver.go:219-227 | a cached answer was worked out for the very spec asked about, unless its key can be cut in another place |
| `DaemonModel.Daemon.OnChange` | daemon/runtime/daemon.go:111-127 | rebuild, publish, reap, push peers, reconcile: the notification step of the runs below |
| `DaemonModel.Daemon.Commit` | daemon/store/store.go:80-96 | a store operation with its notification is the commit step of the runs below |
| `DaemonModel.RunInSync` | daemon/runtime/daemon.go:111-127 | in every state of every run of operations, connections and disconnections the published index is that of the committed state and allows every live flow |
| `DaemonModel.RunDecidesByTables` | daemon/policy/resolver.go:19-35 | in every such state the published index decides service connections as the committed tables do |
| `DaemonModel.RunDecidesPeersByTables` | daemon/policy/resolver.go:37-57 | and traffic between users |
| `DaemonModel.RunKeepsPeers` | daemon/wg/server.go:256-306 | as long as new users bring proper keys of their own, the device carries exactly the users whose key decodes in every state |
| `DaemonModel.DeletedUserStaysOut` | daemon/runtime/daemon.go:111-127 | however a run goes on after a user is deleted, no flow from or to that user is ever live again |
| `DaemonModel.DeletedUserLosesPeer` | daemon/runtime/daemon.go:111-127 | and the device drops its peer with that notification |
| `DaemonModel.RunServesIff` | daemon/runtime/listeners.go:54-89 | after every commit of every run the stack carries exactly the service addresses if and only if the record it started from allowed that |
| `DaemonModel.RunKeepsVips` | daemon/runtime/listeners.go:54-89 | and in every state of a run in which no service changes its address it does |
| `DaemonModel.UsersStayUsable` | daemon/store/users.go:33-126 | proper users stay proper with distinct keys, and nobody new has the key of a current user |
| `DaemonModel.StartsWithPeers` | daemon/runtime/daemon.go:70-73 | the first push into an empty device carries exactly the users found in the database |
| `DaemonModel.BareStart` | daemon/runtime/daemon.go:70-101 | a database without users and services is a start with nothing to push |

## Left out

- SQL text, driver errors, pragmas, time stamps, port row ids: a table is a map or a set, an unexpected database error is an aborted transaction.
- Returned records: a store operation returns the id of its row; the record is that row.
- The settings table, listings for display, HTTP routing, JSON, the command line and the web frontend.
- Migration 0002, which fills the three origin columns from older text; the model starts from the columns it leaves.
- Counter overflow: row ids, flow ids and byte counters are unbounded.
- The parts of a notification after the index is stored are not interleaved with those of another one: `Notifications` is about which index is published, `ControlPlane`, `Admission` and `DaemonModel` carry out one notification at a time.
- DaemonModel.RunInSync: builds are quiet and connections are whole steps between notifications here; torn builds and interleaved handlers are the subject of `ControlPlane`.
- DaemonModel.RunKeepsVips: runs in which a service changes its address are the subject of `DaemonModel.RunServesIff`.
- `Flow.Close` and the closing of connections are the log `closed`; sockets, deadlines and idle timing are not modelled, a pump may stop at any turn.
- Base64 is taken as a bijection between key texts and 32-byte keys; texts that decode to the same key but differ are not modelled.
- The device's own key, which a peer may not have, and the failure of `IpcSet` for other reasons than the text.
- IPv6 users: the text `/32` after an IPv6 address is passed on as it is.
- WgServerModel.WgServer.ApplyPeers: states the result when neither keys nor addresses repeat among users whose key decodes; two users with one key leave the one the map yields last.
- `AddVIP` fails when the stack already has the address or does not take it at all; other failures of the network stack are not modelled.
- Allocator.Allocate: excludes the one search that does not end, which is 255.255.255.255/32 with the text `invalid IP` taken.
- Text.Lower: lower-casing beyond what can meet ASCII letters.
- `Resolve` runs as one call: an invalidation that falls between its lookup and its store is not modelled; each of its steps on the cache keeps the cache invariant by itself.
- Docker, DNS and the probe are parameters of one call; log lines and error texts are not modelled, only which error it is.
- ServicesApi.RunKeepsHostPorts: requests run one after another; two overlapping updates of one service are not modelled.
- Key generation, configuration files, the DNS zone, `.conf` rendering, the API socket and signals.
