/**
 * The target OpenStack cloud as the client code sees it: the records it
 * exchanges with the block-storage, networking and compute services, and a
 * class holding the services' state.
 *
 * The cloud is an external collaborator. It is modelled as tables that
 * requests are answered from by exact-match filters, a fixed set of requests
 * that it refuses (an authentication failure, a rate limit, a bad request:
 * anything the gophercloud call would return as an error), and a log of every
 * request in the order it arrived.
 */
module Cloud {
  import opened Wrappers

  /** A block-storage volume, as `volumes.List` and `volumes.Get` return it. */
  datatype Volume = Volume(id: string, name: string, metadata: map<string, string>)

  /** Filters of a volume listing; `metadata == None` is the nil map: no metadata filter. */
  datatype VolumeListOpts = VolumeListOpts(name: string, metadata: Option<map<string, string>>)

  /** One fixed-IP request of a new port; `ipAddress == None` lets the network pick the address. */
  datatype FixedIp = FixedIp(subnetId: string, ipAddress: Option<string>)

  /** The body of a port-creation request (gophercloud's `ports.CreateOpts`); an empty name or
      description is an unset one. */
  datatype PortCreateBody = PortCreateBody(
    networkId: string,
    macAddress: string,
    fixedIps: seq<FixedIp>,
    securityGroups: Option<seq<string>>,
    name: string,
    description: string)

  /** A network port, with the two attributes port listings filter on. */
  datatype Port = Port(id: string, networkId: string, macAddress: string)

  /** Filters of a port listing. */
  datatype PortListOpts = PortListOpts(networkId: string, macAddress: string)

  datatype SourceType = SourceBlank | SourceImage | SourceSnapshot | SourceVolume
  datatype DestinationType = DestinationLocal | DestinationVolume

  /** One block-device mapping of a server-creation request. */
  datatype BlockDevice = BlockDevice(bootIndex: int, sourceType: SourceType, uuid: string, destinationType: DestinationType)

  /** One network attachment of a server-creation request, by port. */
  datatype Network = Network(port: string)

  /** The body of a server-creation request. */
  datatype ServerCreateOpts = ServerCreateOpts(
    name: string,
    flavorRef: string,
    networks: seq<Network>,
    blockDevice: seq<BlockDevice>)

  /** Every call the client code makes on the cloud. */
  datatype Request =
    | VolumeListRequest(volumeQuery: VolumeListOpts)
    | VolumeGetRequest(volumeId: string)
    | PortListRequest(portQuery: PortListOpts)
    | PortCreateRequest(portOpts: PortCreateBody)
    | ServerCreateRequest(serverOpts: ServerCreateOpts)

  /** The error a refused request comes back with. */
  datatype CloudError = CloudError(request: Request)

  predicate VolumeMatches(v: Volume, q: VolumeListOpts) {
    && v.name == q.name
    && (q.metadata.Some? ==>
          forall k :: k in q.metadata.value ==> k in v.metadata && v.metadata[k] == q.metadata.value[k])
  }

  /** The volumes a listing with `q` returns, in table order. */
  function FilterVolumes(volumes: seq<Volume>, q: VolumeListOpts): (found: seq<Volume>)
    ensures |found| <= |volumes|
  {
    if volumes == [] then []
    else (if VolumeMatches(volumes[0], q) then [volumes[0]] else []) + FilterVolumes(volumes[1..], q)
  }

  /** A listing returns the volumes of the table that match its filters, and only those. */
  lemma {:induction false} FilterVolumesMembers(volumes: seq<Volume>, q: VolumeListOpts)
    ensures forall v :: v in FilterVolumes(volumes, q) <==> v in volumes && VolumeMatches(v, q)
  {
    if volumes != [] {
      FilterVolumesMembers(volumes[1..], q);
      assert volumes == [volumes[0]] + volumes[1..];
    }
  }

  /** The first volume of the table with identifier `id`. */
  function FindVolume(volumes: seq<Volume>, id: string): (r: Option<Volume>)
    ensures r.Some? ==> r.value in volumes && r.value.id == id
  {
    if volumes == [] then None
    else if volumes[0].id == id then Some(volumes[0])
    else FindVolume(volumes[1..], id)
  }

  /** A lookup by identifier fails only when no volume of the table has it. */
  lemma {:induction false} FindVolumeMissing(volumes: seq<Volume>, id: string)
    requires FindVolume(volumes, id).None?
    ensures forall v :: v in volumes ==> v.id != id
  {
    if volumes != [] {
      FindVolumeMissing(volumes[1..], id);
      assert volumes == [volumes[0]] + volumes[1..];
    }
  }

  function ListVolumesAnswer(faults: set<Request>, volumes: seq<Volume>, q: VolumeListOpts): Result<seq<Volume>, CloudError> {
    if VolumeListRequest(q) in faults then Err(CloudError(VolumeListRequest(q)))
    else Ok(FilterVolumes(volumes, q))
  }

  /** A volume that is not there comes back as an error of the request, like any other. */
  function GetVolumeAnswer(faults: set<Request>, volumes: seq<Volume>, id: string): Result<Volume, CloudError> {
    if VolumeGetRequest(id) in faults then Err(CloudError(VolumeGetRequest(id)))
    else match FindVolume(volumes, id)
      case Some(v) => Ok(v)
      case None => Err(CloudError(VolumeGetRequest(id)))
  }

  predicate PortMatches(p: Port, q: PortListOpts) {
    p.networkId == q.networkId && p.macAddress == q.macAddress
  }

  /** The (network, MAC) pair a port is found under. */
  function PortKey(p: Port): PortListOpts {
    PortListOpts(p.networkId, p.macAddress)
  }

  /** The ports a listing with `q` returns, in table order. */
  function FilterPorts(ports: seq<Port>, q: PortListOpts): (found: seq<Port>)
    ensures |found| <= |ports|
    ensures forall p :: p in found <==> p in ports && PortMatches(p, q)
  {
    if ports == [] then []
    else (if PortMatches(ports[0], q) then [ports[0]] else []) + FilterPorts(ports[1..], q)
  }

  lemma {:induction false} FilterPortsAppend(a: seq<Port>, b: seq<Port>, q: PortListOpts)
    ensures FilterPorts(a + b, q) == FilterPorts(a, q) + FilterPorts(b, q)
  {
    if a == [] {
      assert a + b == b;
    } else {
      assert (a + b)[1..] == a[1..] + b;
      FilterPortsAppend(a[1..], b, q);
    }
  }

  function ListPortsAnswer(faults: set<Request>, ports: seq<Port>, q: PortListOpts): Result<seq<Port>, CloudError> {
    if PortListRequest(q) in faults then Err(CloudError(PortListRequest(q)))
    else Ok(FilterPorts(ports, q))
  }

  /** The port the cloud makes for `opts` when its table holds `ports`; `mint` names it. */
  function NewPort(mint: nat -> string, ports: seq<Port>, opts: PortCreateBody): Port {
    Port(mint(|ports|), opts.networkId, opts.macAddress)
  }

  function CreatePortAnswer(faults: set<Request>, mint: nat -> string, ports: seq<Port>, opts: PortCreateBody): Result<Port, CloudError> {
    if PortCreateRequest(opts) in faults then Err(CloudError(PortCreateRequest(opts)))
    else Ok(NewPort(mint, ports, opts))
  }

  function CreateServerAnswer(faults: set<Request>, opts: ServerCreateOpts): Result<ServerCreateOpts, CloudError> {
    if ServerCreateRequest(opts) in faults then Err(CloudError(ServerCreateRequest(opts)))
    else Ok(opts)
  }

  /** The state of the three services, and the calls of gophercloud the client code makes.
      The volume table is fixed: the client code only ever reads it. */
  class TargetCloud {
    const volumes: seq<Volume>
    var ports: seq<Port>
    var servers: seq<ServerCreateOpts>
    var log: seq<Request>
    const faults: set<Request>
    const mint: nat -> string

    constructor (volumes: seq<Volume>, ports: seq<Port>, faults: set<Request>, mint: nat -> string)
      ensures this.volumes == volumes && this.ports == ports && this.servers == [] && this.log == []
      ensures this.faults == faults && this.mint == mint
    {
      this.volumes := volumes;
      this.ports := ports;
      this.servers := [];
      this.log := [];
      this.faults := faults;
      this.mint := mint;
    }

    /** `volumes.List(...).AllPages` followed by `volumes.ExtractVolumes`. */
    method ListVolumes(q: VolumeListOpts) returns (r: Result<seq<Volume>, CloudError>)
      modifies this`log
      ensures r == ListVolumesAnswer(faults, volumes, q)
      ensures log == old(log) + [VolumeListRequest(q)]
    {
      log := log + [VolumeListRequest(q)];
      r := ListVolumesAnswer(faults, volumes, q);
    }

    /** `volumes.Get(...).Extract`. */
    method GetVolume(id: string) returns (r: Result<Volume, CloudError>)
      modifies this`log
      ensures r == GetVolumeAnswer(faults, volumes, id)
      ensures log == old(log) + [VolumeGetRequest(id)]
    {
      log := log + [VolumeGetRequest(id)];
      r := GetVolumeAnswer(faults, volumes, id);
    }

    /** `ports.List(...).AllPages` followed by `ports.ExtractPorts`. */
    method ListPorts(q: PortListOpts) returns (r: Result<seq<Port>, CloudError>)
      modifies this`log
      ensures r == ListPortsAnswer(faults, ports, q)
      ensures log == old(log) + [PortListRequest(q)]
    {
      log := log + [PortListRequest(q)];
      r := ListPortsAnswer(faults, ports, q);
    }

    /** `ports.Create(...).Extract`: a created port is appended to the port table. */
    method CreatePort(opts: PortCreateBody) returns (r: Result<Port, CloudError>)
      modifies this`log, this`ports
      ensures r == CreatePortAnswer(faults, mint, old(ports), opts)
      ensures ports == if r.Ok? then old(ports) + [r.value] else old(ports)
      ensures log == old(log) + [PortCreateRequest(opts)]
    {
      log := log + [PortCreateRequest(opts)];
      r := CreatePortAnswer(faults, mint, ports, opts);
      if r.Ok? {
        ports := ports + [r.value];
      }
    }

    /** `servers.Create(...).Extract`: an accepted request is appended to the server table. */
    method CreateServer(opts: ServerCreateOpts) returns (r: Result<ServerCreateOpts, CloudError>)
      modifies this`log, this`servers
      ensures r == CreateServerAnswer(faults, opts)
      ensures servers == if r.Ok? then old(servers) + [opts] else old(servers)
      ensures log == old(log) + [ServerCreateRequest(opts)]
    {
      log := log + [ServerCreateRequest(opts)];
      r := CreateServerAnswer(faults, opts);
      if r.Ok? {
        servers := servers + [opts];
      }
    }
  }
}
