/**
 * The client set of the migration: the four reconciliation operations of
 * internal/openstack/client.go, written as the Go code runs them, each proved
 * to do what the specification functions of Volumes, Ports and Servers say.
 * The unsafe name-only flag and the security groups, which the Go code reads
 * from its context, are explicit parameters.
 */
module OpenStack {
  import opened Wrappers
  import opened Cloud
  import opened Inventory
  import opened Results
  import opened Volumes
  import opened Ports
  import opened Servers

  class ClientSet {
    const cloud: TargetCloud
    const naming: VolumeNaming

    constructor (cloud: TargetCloud, naming: VolumeNaming)
      ensures this.cloud == cloud && this.naming == naming
    {
      this.cloud := cloud;
      this.naming := naming;
    }

    /** The volume a disk was migrated into. */
    method GetVolumeForDisk(vm: VirtualMachine, disk: VirtualDisk, unsafeVolumeByName: bool)
      returns (r: Result<Volume, Error>)
      modifies cloud`log
      ensures var spec := ResolveVolume(cloud.faults, cloud.volumes, naming, vm, disk, unsafeVolumeByName);
              r == spec.result && cloud.log == old(cloud.log) + spec.trace
      // the first listing filters by name, and by the ownership tags unless the flag is set
      ensures cloud.log[|old(cloud.log)|] == VolumeListRequest(VolumeListOpts(
                naming.current(vm, disk),
                if unsafeVolumeByName then None
                else Some(OwnerMetadata(vm.ref, Itoa(disk.key as int)))))
    {
      ResolveVolumeRequests(cloud.faults, cloud.volumes, naming, vm, disk, unsafeVolumeByName);
      var opts := VolumeListOpts(naming.current(vm, disk), None);
      if !unsafeVolumeByName {
        opts := opts.(metadata := Some(map["migrate_kit" := "true", "vm" := vm.ref, "disk" := Itoa(disk.key as int)]));
      }
      assert opts == CurrentVolumeQuery(naming, vm, disk, unsafeVolumeByName);
      var listed := cloud.ListVolumes(opts);
      if listed.Err? {
        return Err(Upstream(listed.error));
      }
      var volumeList := listed.value;
      if |volumeList| == 0 {
        var legacy := GetVolumeListForDiskOld(vm, disk);
        if legacy.Err? {
          return Err(legacy.error);
        }
        volumeList := legacy.value;
      }
      if |volumeList| == 0 {
        return Err(VolumeNotFound);
      } else if |volumeList| > 1 {
        return Err(MultipleVolumes);
      }
      var got := cloud.GetVolume(volumeList[0].id);
      r := Lift(got);
    }

    /** The volumes of a disk under the legacy naming scheme. */
    method GetVolumeListForDiskOld(vm: VirtualMachine, disk: VirtualDisk) returns (r: Result<seq<Volume>, Error>)
      modifies cloud`log
      ensures r == Lift(ListVolumesAnswer(cloud.faults, cloud.volumes, LegacyVolumeQuery(naming, vm, disk)))
      // always tagged, whatever the unsafe flag, with the disk object identifier as the disk tag
      ensures cloud.log == old(cloud.log) + [VolumeListRequest(VolumeListOpts(
                naming.legacy(vm, disk),
                Some(OwnerMetadata(vm.ref, disk.diskObjectId))))]
    {
      var listed := cloud.ListVolumes(VolumeListOpts(
        naming.legacy(vm, disk),
        Some(OwnerMetadata(vm.ref, disk.diskObjectId))));
      r := Lift(listed);
    }

    /** The index of the VM's cards by MAC address. */
    method IndexCardsByMac(nics: seq<EthernetCard>) returns (cardsByMac: map<string, EthernetCard>)
      ensures cardsByMac == CardsByMac(nics)
    {
      cardsByMac := map[];
      for i := 0 to |nics|
        invariant cardsByMac == CardsByMac(nics[..i])
      {
        assert nics[..i + 1][..i] == nics[..i];
        cardsByMac := cardsByMac[nics[i].macAddress := nics[i]];
      }
      assert nics[..|nics|] == nics;
    }

    /** The ports of the VM's mapped cards, found or created, one per mapping in table order. */
    method EnsurePortsForVirtualMachine(vm: VirtualMachine, mappings: seq<MappingEntry>,
                                        securityGroups: Option<seq<string>>)
      returns (r: Result<seq<Network>, Error>)
      modifies cloud`log, cloud`ports
      ensures var spec := EnsurePorts(cloud.faults, cloud.mint, old(cloud.ports), CardsByMac(vm.nics), mappings, securityGroups);
              r == spec.result && cloud.ports == spec.ports && cloud.log == old(cloud.log) + spec.trace
    {
      var cardsByMac := IndexCardsByMac(vm.nics);
      ghost var spec := EnsurePorts(cloud.faults, cloud.mint, cloud.ports, cardsByMac, mappings, securityGroups);
      ghost var done: seq<Request> := [];
      var networks: seq<Network> := [];
      var i := 0;
      RunContinuesBounds(cloud.faults, cloud.mint, cloud.ports, cardsByMac, mappings, securityGroups, spec, networks, done);
      while i < |mappings|
        invariant 0 <= i <= |mappings|
        invariant cloud.log == old(cloud.log) + done
        invariant RunContinues(spec, cloud.faults, cloud.mint, cloud.ports, cardsByMac, mappings, i, securityGroups, networks, done)
      {
        RunContinuesStep(cloud.faults, cloud.mint, cloud.ports, cardsByMac, mappings, i, securityGroups, spec, networks, done);
        ghost var step := EnsurePort(cloud.faults, cloud.mint, cloud.ports, cardsByMac, mappings[i], securityGroups);
        ghost var before := cloud.log;
        var network := EnsurePortForMapping(mappings[i], cardsByMac, securityGroups);
        LogExtends(old(cloud.log), done, before, step.trace, cloud.log);
        if network.Err? {
          return Err(network.error);
        }
        networks := networks + [network.value];
        done := done + step.trace;
        i := i + 1;
      }
      RunContinuesBounds(cloud.faults, cloud.mint, cloud.ports, cardsByMac, mappings, securityGroups, spec, networks, done);
      r := Ok(networks);
    }

    /** One iteration of the mapping loop: the network of one mapping, its port found or created. */
    method EnsurePortForMapping(entry: MappingEntry, cardsByMac: map<string, EthernetCard>,
                                securityGroups: Option<seq<string>>)
      returns (r: Result<Network, Error>)
      modifies cloud`log, cloud`ports
      ensures var step := EnsurePort(cloud.faults, cloud.mint, old(cloud.ports), cardsByMac, entry, securityGroups);
              r == step.result && cloud.ports == step.ports && cloud.log == old(cloud.log) + step.trace
    {
      if entry.mac !in cardsByMac {
        return Err(NoNicForMac(entry.mac));
      }
      var listed := cloud.ListPorts(PortListOpts(entry.mapping.networkId, entry.mac));
      if listed.Err? {
        return Err(Upstream(listed.error));
      }
      var portList := listed.value;
      var port: Port;
      if |portList| == 0 {
        var createOpts := PortCreateOptsFor(entry.mac, entry.mapping, cardsByMac[entry.mac], securityGroups);
        var created := cloud.CreatePort(createOpts);
        if created.Err? {
          return Err(Upstream(created.error));
        }
        port := created.value;
      } else if |portList| == 1 {
        port := portList[0];
      } else {
        return Err(MultiplePorts);
      }
      r := Ok(Network(port.id));
    }

    /** The server for the VM, booting from its disks' volumes in device order. */
    method CreateResourcesForVirtualMachine(vm: VirtualMachine, flavor: string, networks: seq<Network>,
                                            unsafeVolumeByName: bool)
      returns (r: Outcome<Error>)
      modifies cloud`log, cloud`servers
      ensures var spec := CreateResources(cloud.faults, cloud.volumes, naming, vm, flavor, networks, unsafeVolumeByName);
              && (r.Pass? <==> spec.result.Ok?)
              && (r.Fail? ==> r.error == spec.result.error)
              && cloud.servers == old(cloud.servers) + (if spec.result.Ok? then [spec.result.value] else [])
              && cloud.log == old(cloud.log) + spec.trace
    {
      ghost var spec := AssembleBlockDevices(cloud.faults, cloud.volumes, naming, vm, vm.disks, 0, unsafeVolumeByName);
      ghost var done: seq<Request> := [];
      var blockDevices: seq<BlockDevice> := [];
      var diskIndex := 0;
      AssemblyContinuesBounds(cloud.faults, cloud.volumes, naming, vm, unsafeVolumeByName, spec, blockDevices, done);
      for i := 0 to |vm.disks|
        invariant diskIndex == i
        invariant cloud.log == old(cloud.log) + done && cloud.servers == old(cloud.servers)
        invariant AssemblyContinues(spec, cloud.faults, cloud.volumes, naming, vm, i, unsafeVolumeByName, blockDevices, done)
      {
        AssemblyContinuesStep(cloud.faults, cloud.volumes, naming, vm, i, unsafeVolumeByName, spec, blockDevices, done);
        ghost var resolved := ResolveVolume(cloud.faults, cloud.volumes, naming, vm, vm.disks[i], unsafeVolumeByName);
        ghost var before := cloud.log;
        var volume := GetVolumeForDisk(vm, vm.disks[i], unsafeVolumeByName);
        LogExtends(old(cloud.log), done, before, resolved.trace, cloud.log);
        if volume.Err? {
          assert spec == Step(Err(volume.error), cloud.log[|old(cloud.log)|..]);
          return Fail(volume.error);
        }
        blockDevices := blockDevices + [BlockDevice(diskIndex, SourceVolume, volume.value.id, DestinationVolume)];
        done := done + resolved.trace;
        diskIndex := diskIndex + 1;
      }
      AssemblyContinuesBounds(cloud.faults, cloud.volumes, naming, vm, unsafeVolumeByName, spec, blockDevices, done);
      var opts := ServerCreateOpts(vm.configName, flavor, networks, blockDevices);
      ghost var before := cloud.log;
      var created := cloud.CreateServer(opts);
      LogExtends(old(cloud.log), done, before, [ServerCreateRequest(opts)], cloud.log);
      assert CreateResources(cloud.faults, cloud.volumes, naming, vm, flavor, networks, unsafeVolumeByName)
             == Step(Lift(CreateServerAnswer(cloud.faults, opts)), done + [ServerCreateRequest(opts)]);
      if created.Err? {
        return Fail(Upstream(created.error));
      }
      r := Pass;
    }
  }
}
