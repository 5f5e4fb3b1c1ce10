# OpenStack reconciliation of a migrated VMware VM

This project models the reconciliation half of the OpenStack client of the
migration tool (`internal/openstack/client.go`). It decides which pre-created
volume backs each VMware disk. It finds or creates one network port per mapped
network card. It then builds the server-creation request, which boots from
those volumes and attaches those ports.

The model is imperative, in the shape of the Go code:

- `OpenStack.ClientSet` is the client set. It has methods
  `GetVolumeForDisk`, `GetVolumeListForDiskOld`,
  `EnsurePortsForVirtualMachine` and `CreateResourcesForVirtualMachine`.
  These are written as the Go code runs them: they mutate the list options,
  build the card index in a loop, and loop over mappings and disks appending
  to `networks` and `blockDevices`.
- `Cloud.TargetCloud` is the target cloud, an object the client changes. It
  holds:
  - a volume table;
  - a port table, which a port creation appends to;
  - a table of accepted server requests;
  - a log of every request in arrival order;
  - a fixed set of requests it refuses (authentication failures, rate limits,
    bad requests: anything the gophercloud call would return as an error).
  A refused request comes back as an error naming the request, and the client
  code returns it unchanged. A new port's identifier is given by a function of
  the port table's size.
- Each method is proved against a pure specification function:
  - `Volumes.ResolveVolume`, `Ports.EnsurePorts` and `Servers.CreateResources`
    return the result, the new port table and the requests made, in order.
  - Each method's postcondition says that it returns that result, leaves that
    port table and appends exactly those requests to the cloud's log.
- The properties the code promises are proved about those functions: the
  zero/one/many rules, the legacy fallback, the create options, idempotence of
  port reconciliation, and boot order.

Modules:

| module | holds |
|---|---|
| `Wrappers` | `Option`, `Result`, `Outcome` |
| `Cloud` | the request and record types of the three services, the cloud's answers, `TargetCloud` |
| `Inventory` | the VM as the migration reads it: reference, configured name, disks, network cards; the two volume-naming functions |
| `Results` | the error values of the client code and the shape of a step's result |
| `Volumes` | volume lookup keys and resolution |
| `Ports` | card index, create options and port reconciliation |
| `Servers` | block-device assembly and the server-creation request |
| `OpenStack` | the client set's methods |

### A failed port reconciliation

The mapping loop returns at the first mapping that fails (`client.go:185`,
`193`, `198`, `225`, `232`). A MAC address unknown to the VM is found only when
its mapping's turn comes. Ports created for earlier mappings are not removed:
they stay in the cloud after the run fails. A later run creates no second port
for their mappings (`Ports.EnsurePortsKeepsMatches`).

### The legacy fallback

The legacy listing is made only when the current listing is empty
(`client.go:126-134`). So a disk with one current-scheme match and several
legacy matches resolves to the current match, and several current-scheme
matches are ambiguous whatever the legacy scheme holds.
`Volumes.ResolveVolumeOutcome` states the ambiguity condition in exactly these
terms.

## Model

| member | source | states |
|---|---|---|
| `Cloud.TargetCloud.ListVolumes` | internal/openstack/client.go:114-122 | a volume listing is logged. It is answered with the volumes whose name equals the query's name and whose metadata holds every requested tag. A refused listing answers with an error naming the request |
| `Cloud.TargetCloud.GetVolume` | internal/openstack/client.go:142 | a fetch by identifier is logged and answered with the first volume of that identifier. A missing volume is an error of the request |
| `Cloud.TargetCloud.ListPorts` | internal/openstack/client.go:188-199 | a port listing is logged and answered with the ports on the queried network that carry the queried MAC address, in table order |
| `Cloud.TargetCloud.CreatePort` | internal/openstack/client.go:223-226 | a port creation is logged. On success exactly the new port, with the requested network and MAC address, is appended to the port table. On refusal the table is unchanged |
| `Cloud.TargetCloud.CreateServer` | internal/openstack/client.go:272-280 | a server creation is logged. An accepted request is appended to the server table |
| `Volumes.ItoaRoundTrip` | internal/openstack/client.go:110 | the disk tag is the decimal text of the device key (`strconv.Itoa`) and reads back to the key, so disks with different keys carry different tags. This is the contract of `Itoa` |
| `Volumes.CurrentQueryFilters` | internal/openstack/client.go:102-112 | the current-scheme listing filters by `VolumeName`. It carries the ownership tags exactly when the unsafe flag is off: `migrate_kit=true`, the VM's reference, and a disk tag that reads back to the device key. These are the contract of `CurrentVolumeQuery` |
| `Volumes.TaggedQueriesSeparateDisks` | internal/openstack/client.go:106-112 | tagged current-scheme listings of two disks with different device keys differ, and no volume matches both: its `disk` tag would have to equal both disks' tags, which read back to different keys |
| `Volumes.LegacyQueryFilters` | internal/openstack/client.go:147-155 | the legacy listing filters by `VolumeNameOld` and is always tagged, with the disk object identifier as the disk tag. This is the contract of `LegacyVolumeQuery` |
| `Volumes.SelectVolumeRule` | internal/openstack/client.go:136-142 | no match is "not found" and several are "multiple volumes", with no further request. Only a single match is fetched, by its identifier, and the fetch's answer or refusal is the result. This is the contract of `SelectVolume` |
| `Volumes.ResolveVolume` | internal/openstack/client.go:98-143 | a lookup makes one to three requests. Its requests and outcome are stated by `ResolveVolumeRequests`, `ResolveVolumeTrace` and `ResolveVolumeOutcome` |
| `Volumes.ResolveVolumeRequests` | internal/openstack/client.go:102-134 | the first request is the current-scheme listing. The legacy listing is the second request exactly when the current listing answered with no volumes. Only volume requests are made |
| `Volumes.ResolveVolumeTrace` | internal/openstack/client.go:114-142 | the exact requests. When the current listing is refused or finds volumes, it is the only listing, followed only by the fetch of its single match if there is one. When it finds nothing, the legacy listing follows, then the fetch of that listing's single match if there is one |
| `Volumes.ResolveVolumeOutcome` | internal/openstack/client.go:114-142 | a refused current listing is the result, as `Upstream` of its own error, after that one request. A refused legacy listing is the result after the two listings. A single match's fetch answer, or its refusal, is the result. Any `Upstream` error is the error of the last request. Not found happens exactly when both schemes find nothing. Ambiguous happens exactly when the current scheme finds several, or finds none while the legacy scheme finds several. On success the volume is in the table, was fetched by the identifier of the single match of the scheme consulted last, and that fetch is the last request |
| `Volumes.ResolveVolumeFindsSingleMatch` | internal/openstack/client.go:136-142 | on a cloud that refuses nothing and has unique volume identifiers, a single match under the scheme consulted last is the volume returned |
| `Ports.CardsByMacLastWins` | internal/openstack/client.go:172-178 | the card index knows exactly the MAC addresses of the VM's cards. Each maps to the last card in device order that carries it. This is the contract of `CardsByMac`, which the loop of `IndexCardsByMac` builds |
| `Ports.PortCreateOptsFor` | internal/openstack/client.go:203-221 | the create options always carry the mapping's network and the MAC address. A nil subnet gives no fixed IP, security groups, name or description. Otherwise there is exactly one fixed IP, on the mapped subnet, with an address exactly when the mapping gives one, plus the security groups and the card's label and summary as name and description |
| `Ports.EnsurePort` | internal/openstack/client.go:180-233 | an unknown MAC address fails before any request and changes nothing. Otherwise the port table is unchanged, or grows by one port on the mapping's network and MAC, and only when it had none |
| `Ports.EnsurePortDecision` | internal/openstack/client.go:188-233 | a known MAC's first request is its listing. A creation is requested exactly when the listing answered with no ports, and then the requests are the listing and that creation. An accepted creation returns the new port's network and appends that port to the table. A refused creation returns `Upstream` of its error and leaves the table unchanged. A refused listing returns `Upstream` of its error after that one request. A single match is reused with no other request. Several matches are the "multiple ports" error exactly when the listing answered with more than one. On success the returned port is the only one on that network with that MAC |
| `Ports.EnsurePorts` | internal/openstack/client.go:180-238 | a successful run returns one network per mapping. Ports are only appended to the table, at most one per mapping. A failed run is stated by `EnsurePortsStopsAtFirstFailure` |
| `Ports.EnsurePortsStopsAtFirstFailure` | internal/openstack/client.go:180-233 | a failed run fails with the error of the first mapping that fails, after every earlier mapping succeeded. Its requests are the earlier mappings' requests followed by the failing mapping's, so no later mapping is listed or created. The failing mapping creates nothing, and the ports created for earlier mappings stay in the table |
| `Ports.EnsurePortsCreatesNoDuplicate` | internal/openstack/client.go:201-227 | every port a run creates is the first in the table with its network and MAC address |
| `Ports.EnsurePortsKeepsMatches` | internal/openstack/client.go:188-233 | a run adds no port to a (network, MAC) pair that already had one |
| `Ports.EnsurePortsSettles` | internal/openstack/client.go:180-238 | after a successful run, every mapping's MAC is known, its listing was answered, and its network's port is the one and only port on its network with its MAC address |
| `Ports.EnsurePortsReuses` | internal/openstack/client.go:228-235 | on a table where every mapping has exactly one port, a run returns those ports in mapping order, leaves the table unchanged and makes one listing per mapping |
| `Ports.EnsurePortReusesMatch` | internal/openstack/client.go:228-230 | a known mapping whose listing is answered with exactly one port reuses that port after that one listing and changes nothing |
| `Ports.EnsurePortsIdempotent` | internal/openstack/client.go:165-239 | running reconciliation again over the mappings in the same order, after a successful run, returns the same networks, leaves the same port table and creates nothing |
| `Ports.EnsurePortsIdempotentAnyOrder` | internal/openstack/client.go:180-235 | running reconciliation again over the mappings in any order, or over any of them, after a successful run succeeds, makes one listing per mapping, creates nothing, leaves the port table, and gives every mapping the same port the first run gave it |
| `Servers.AssembleInOrder` | internal/openstack/client.go:253-270 | a successful assembly has one block device per disk, in disk order. Device `i` has boot index `i`, source and destination type volume, and the resolved volume's identifier. No server is requested during assembly |
| `Servers.AssembleBlockDevices` | internal/openstack/client.go:253-270 | only a disk can make the assembly fail, so an empty disk list always assembles. Its order and contents are stated by `AssembleInOrder` |
| `Servers.AssembleStopsAtFirstFailure` | internal/openstack/client.go:256-261 | a failed assembly fails with the error of the first disk that does not resolve, after every earlier disk resolved |
| `Servers.CreateResourcesRequest` | internal/openstack/client.go:253-280 | the server is requested exactly when every disk resolved, once and as the last request. Otherwise the result is the assembly's error. The request as sent carries the VM's configured name, the flavor and the networks unchanged, plus one volume block device per disk. Boot indices are strictly increasing 0, 1, 2, …, and device `i` is backed by disk `i`'s volume. The compute service's answer is the result: the request itself if accepted, `Upstream` of the refusal otherwise |
| `Servers.CreateResources` | internal/openstack/client.go:241-280 | an accepted server is the last request made. It is named after the VM, with the flavor and networks given |
| `OpenStack.ClientSet.GetVolumeForDisk` | internal/openstack/client.go:98-143 | returns what `ResolveVolume` gives and appends exactly its requests to the log. The first request filters by `VolumeName` and, unless the unsafe flag is set, by the tags `migrate_kit=true`, `vm=<reference>`, `disk=<decimal device key>` |
| `OpenStack.ClientSet.GetVolumeListForDiskOld` | internal/openstack/client.go:147-163 | one listing by `VolumeNameOld`, always tagged, whatever the unsafe flag, with the disk object identifier as the disk tag. Its answer and its error are returned unchanged |
| `OpenStack.ClientSet.IndexCardsByMac` | internal/openstack/client.go:171-178 | the loop builds exactly the card index `CardsByMac` of the VM's cards |
| `OpenStack.ClientSet.EnsurePortsForVirtualMachine` | internal/openstack/client.go:165-239 | returns what `EnsurePorts` gives over the mappings in iteration order. It leaves its port table and appends exactly its requests to the log |
| `OpenStack.ClientSet.EnsurePortForMapping` | internal/openstack/client.go:180-235 | one turn of the mapping loop: the network of one mapping, with the port table and requests `EnsurePort` gives |
| `OpenStack.ClientSet.CreateResourcesForVirtualMachine` | internal/openstack/client.go:241-280 | fails exactly when `CreateResources` fails, with its error. It appends the accepted request to the server table only on success, and appends exactly its requests to the log |

## Left out

- `NewClientSet` (`client.go:38-96`) is not part of this model. It covers authentication, environment variables and TLS/HTTP transport setup.
- The gophercloud calls, pagination (`AllPages`) and extraction (`Extract*`) are one answer per call. An extraction error is folded into the call's refusal.
- The service-side filter semantics are taken as exact name equality plus metadata-subset matching for volumes, and exact network and MAC equality for ports.
- `servers.WaitForStatus` and the five-minute timeout (`client.go:282-290`) are left out. They are time-based polling inside a library.
- Device retrieval and `vm.Properties` (`client.go:166-169`, `242-251`) and the type selection of disks and cards are left out. The VM comes as a value with its disks and cards in device order, so their errors are not modelled.
- The `ctx.Value` lookups (`client.go:100`, `216`) are explicit parameters: the unsafe flag, and the optional security groups. The panic when a value is missing is not modelled.
- Logging and `fmt.Printf` diagnostics (`client.go:132`, `183-184`, `227`, `230`) are left out. They do not affect results.
- `VolumeName` and `VolumeNameOld` are defined elsewhere in the repository. Here they are arbitrary functions of the VM and the disk.
- UUIDs and IP addresses are held as their canonical text. `uuid.Nil` is the text `00000000-0000-0000-0000-000000000000`, so formatting them is not modelled.
- The mapping table is a Go map with unspecified iteration order. It is a sequence of (MAC, mapping) pairs in whatever order the iteration yields, and every property is stated for every such sequence. Two calls can walk the mappings in different orders. Then each mapping gets the same port, but the returned network list, and so the created server's network attachment order, can differ between the calls. `EnsurePortsIdempotentAnyOrder` states the per-mapping fact. `EnsurePortsIdempotent` states list equality only for a repeated order. The model does not rely on MAC addresses being distinct, as they are in a Go map.
- Error messages are constructors of `Results.Error` rather than text.
- An empty result is `Ok([])` rather than a nil slice.
- Volume identifiers may repeat in the table, except in `Volumes.ResolveVolumeFindsSingleMatch`, which says so.
