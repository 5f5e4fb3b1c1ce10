/**
 * Instance provisioning up to the server-creation request: every disk, in
 * device order, is resolved to its volume and becomes the block device whose
 * boot index is its position; only when all disks resolve is the server
 * requested, with the VM's name, the flavor and the reconciled networks.
 */
module Servers {
  import opened Wrappers
  import opened Cloud
  import opened Inventory
  import opened Results
  import opened Volumes

  /** The block device of a disk resolved to `volume`, at boot position `index`. */
  function VolumeBlockDevice(index: int, volume: Volume): BlockDevice {
    BlockDevice(index, SourceVolume, volume.id, DestinationVolume)
  }

  /** Some request of `trace` creates a server. */
  predicate CreatesServer(trace: seq<Request>) {
    exists k :: 0 <= k < |trace| && trace[k].ServerCreateRequest?
  }

  /** The disk loop of `CreateResourcesForVirtualMachine` over `disks`, the first of them at `from`. */
  function AssembleBlockDevices(faults: set<Request>, volumes: seq<Volume>, naming: VolumeNaming, vm: VirtualMachine,
                                disks: seq<VirtualDisk>, from: nat, unsafeVolumeByName: bool): (r: Step<seq<BlockDevice>>)
    decreases |disks|
    // only a disk can make the assembly fail
    ensures r.result.Err? ==> 0 < |disks|
  {
    if disks == [] then Step(Ok([]), [])
    else
      var resolved := ResolveVolume(faults, volumes, naming, vm, disks[0], unsafeVolumeByName);
      if resolved.result.Err? then Step(Err(resolved.result.error), resolved.trace)
      else
        var rest := AssembleBlockDevices(faults, volumes, naming, vm, disks[1..], from + 1, unsafeVolumeByName);
        Step(Then([VolumeBlockDevice(from, resolved.result.value)], rest.result), resolved.trace + rest.trace)
  }

  /** Resolving a disk's volume requests no server. */
  lemma ResolveRequestsNoServer(faults: set<Request>, volumes: seq<Volume>, naming: VolumeNaming,
                                vm: VirtualMachine, disk: VirtualDisk, unsafeVolumeByName: bool)
    ensures !CreatesServer(ResolveVolume(faults, volumes, naming, vm, disk, unsafeVolumeByName).trace)
  {
    var trace := ResolveVolume(faults, volumes, naming, vm, disk, unsafeVolumeByName).trace;
    ResolveVolumeRequests(faults, volumes, naming, vm, disk, unsafeVolumeByName);
    assert forall k :: 0 <= k < |trace| ==> trace[k] in trace;
  }

  /** One block device per disk, in disk order, booting in that order from the disk's own
      volume; the assembly makes volume requests only. */
  lemma {:induction false} AssembleInOrder(faults: set<Request>, volumes: seq<Volume>, naming: VolumeNaming,
                                           vm: VirtualMachine, disks: seq<VirtualDisk>, from: nat,
                                           unsafeVolumeByName: bool)
    ensures var r := AssembleBlockDevices(faults, volumes, naming, vm, disks, from, unsafeVolumeByName);
            && (r.result.Ok? ==>
                  && |r.result.value| == |disks|
                  && forall i :: 0 <= i < |disks| ==>
                       var resolved := ResolveVolume(faults, volumes, naming, vm, disks[i], unsafeVolumeByName).result;
                       resolved.Ok? && r.result.value[i] == VolumeBlockDevice(from + i, resolved.value))
            && !CreatesServer(r.trace)
    decreases |disks|
  {
    if disks != [] {
      var resolved := ResolveVolume(faults, volumes, naming, vm, disks[0], unsafeVolumeByName);
      ResolveRequestsNoServer(faults, volumes, naming, vm, disks[0], unsafeVolumeByName);
      if resolved.result.Ok? {
        AssembleInOrder(faults, volumes, naming, vm, disks[1..], from + 1, unsafeVolumeByName);
        assert forall i :: 1 <= i < |disks| ==> disks[1..][i - 1] == disks[i];
      }
    }
  }

  /** What an assembly from disk `i` on leaves of `spec`, once `devices` were built with the
      requests `done`: the invariant of the disk loop. */
  predicate AssemblyContinues(spec: Step<seq<BlockDevice>>, faults: set<Request>, volumes: seq<Volume>,
                              naming: VolumeNaming, vm: VirtualMachine, i: nat, unsafeVolumeByName: bool,
                              devices: seq<BlockDevice>, done: seq<Request>)
    requires i <= |vm.disks|
  {
    var rest := AssembleBlockDevices(faults, volumes, naming, vm, vm.disks[i..], i, unsafeVolumeByName);
    spec == Step(Then(devices, rest.result), done + rest.trace)
  }

  /** The disk loop starts with the whole assembly ahead and ends with its own result. */
  lemma AssemblyContinuesBounds(faults: set<Request>, volumes: seq<Volume>, naming: VolumeNaming, vm: VirtualMachine,
                                unsafeVolumeByName: bool, spec: Step<seq<BlockDevice>>,
                                devices: seq<BlockDevice>, done: seq<Request>)
    ensures spec == AssembleBlockDevices(faults, volumes, naming, vm, vm.disks, 0, unsafeVolumeByName) ==>
              AssemblyContinues(spec, faults, volumes, naming, vm, 0, unsafeVolumeByName, [], [])
    ensures AssemblyContinues(spec, faults, volumes, naming, vm, |vm.disks|, unsafeVolumeByName, devices, done) ==>
              spec == Step(Ok(devices), done)
  {
    assert vm.disks[0..] == vm.disks && vm.disks[|vm.disks|..] == [];
    assert [] + spec.trace == spec.trace && devices + [] == devices && done + [] == done;
    ThenNothing(spec.result);
  }

  /** One turn of the disk loop: a disk that does not resolve ends the assembly with its
      error, one that does adds its block device and requests and moves on. */
  lemma AssemblyContinuesStep(faults: set<Request>, volumes: seq<Volume>, naming: VolumeNaming, vm: VirtualMachine,
                              i: nat, unsafeVolumeByName: bool, spec: Step<seq<BlockDevice>>,
                              devices: seq<BlockDevice>, done: seq<Request>)
    requires i < |vm.disks|
    requires AssemblyContinues(spec, faults, volumes, naming, vm, i, unsafeVolumeByName, devices, done)
    ensures var resolved := ResolveVolume(faults, volumes, naming, vm, vm.disks[i], unsafeVolumeByName);
            && (resolved.result.Err? ==> spec == Step(Err(resolved.result.error), done + resolved.trace))
            && (resolved.result.Ok? ==>
                  AssemblyContinues(spec, faults, volumes, naming, vm, i + 1, unsafeVolumeByName,
                                    devices + [VolumeBlockDevice(i, resolved.result.value)], done + resolved.trace))
  {
    var resolved := ResolveVolume(faults, volumes, naming, vm, vm.disks[i], unsafeVolumeByName);
    var rest := AssembleBlockDevices(faults, volumes, naming, vm, vm.disks[i + 1..], i + 1, unsafeVolumeByName);
    assert vm.disks[i..][0] == vm.disks[i] && vm.disks[i..][1..] == vm.disks[i + 1..];
    if resolved.result.Ok? {
      ThenThen(devices, [VolumeBlockDevice(i, resolved.result.value)], rest.result);
      assert done + (resolved.trace + rest.trace) == (done + resolved.trace) + rest.trace;
    }
  }

  /** A failed assembly fails with the error of the first disk that does not resolve, `disks[k]`:
      the disks are resolved in order and the loop stops at the first failure. */
  lemma {:induction false} AssembleStopsAtFirstFailure(faults: set<Request>, volumes: seq<Volume>, naming: VolumeNaming,
                                                       vm: VirtualMachine, disks: seq<VirtualDisk>, from: nat,
                                                       unsafeVolumeByName: bool)
    returns (k: nat)
    requires AssembleBlockDevices(faults, volumes, naming, vm, disks, from, unsafeVolumeByName).result.Err?
    ensures k < |disks|
    ensures forall i :: 0 <= i < k ==> ResolveVolume(faults, volumes, naming, vm, disks[i], unsafeVolumeByName).result.Ok?
    ensures ResolveVolume(faults, volumes, naming, vm, disks[k], unsafeVolumeByName).result
            == Err(AssembleBlockDevices(faults, volumes, naming, vm, disks, from, unsafeVolumeByName).result.error)
    decreases |disks|
  {
    if ResolveVolume(faults, volumes, naming, vm, disks[0], unsafeVolumeByName).result.Ok? {
      var j := AssembleStopsAtFirstFailure(faults, volumes, naming, vm, disks[1..], from + 1, unsafeVolumeByName);
      k := j + 1;
      forall i | 0 <= i < k
        ensures ResolveVolume(faults, volumes, naming, vm, disks[i], unsafeVolumeByName).result.Ok?
      {
        if i > 0 {
          assert disks[i] == disks[1..][i - 1];
        }
      }
      assert disks[k] == disks[1..][j];
    } else {
      k := 0;
    }
  }

  /** `CreateResourcesForVirtualMachine` up to the server creation; on success the result
      is the creation request the compute service accepted. */
  function CreateResources(faults: set<Request>, volumes: seq<Volume>, naming: VolumeNaming, vm: VirtualMachine,
                           flavor: string, networks: seq<Network>, unsafeVolumeByName: bool): (r: Step<ServerCreateOpts>)
    // an accepted server is the last request made, named after the VM, with the flavor and networks given
    ensures r.result.Ok? ==>
              && r.trace != [] && r.trace[|r.trace| - 1] == ServerCreateRequest(r.result.value)
              && r.result.value.name == vm.configName && r.result.value.flavorRef == flavor
              && r.result.value.networks == networks
  {
    var devices := AssembleBlockDevices(faults, volumes, naming, vm, vm.disks, 0, unsafeVolumeByName);
    if devices.result.Err? then
      Step(Err(devices.result.error), devices.trace)
    else
      var opts := ServerCreateOpts(vm.configName, flavor, networks, devices.result.value);
      Step(Lift(CreateServerAnswer(faults, opts)), devices.trace + [ServerCreateRequest(opts)])
  }

  /** The server is requested, once and last, exactly when every disk resolved; the request
      carries the VM's name, the flavor, the networks and one volume block device per disk,
      booting in disk order; the compute service's refusal is returned unchanged. */
  lemma CreateResourcesRequest(faults: set<Request>, volumes: seq<Volume>, naming: VolumeNaming, vm: VirtualMachine,
                               flavor: string, networks: seq<Network>, unsafeVolumeByName: bool)
    ensures var r := CreateResources(faults, volumes, naming, vm, flavor, networks, unsafeVolumeByName);
            var devices := AssembleBlockDevices(faults, volumes, naming, vm, vm.disks, 0, unsafeVolumeByName);
            && (CreatesServer(r.trace) <==> devices.result.Ok?)
            && (!CreatesServer(r.trace) ==> r.result == Err(devices.result.error))
            && (CreatesServer(r.trace) ==>
                  && r.trace[|r.trace| - 1].ServerCreateRequest? && !CreatesServer(r.trace[..|r.trace| - 1])
                  && var opts := r.trace[|r.trace| - 1].serverOpts;
                  && opts.name == vm.configName && opts.flavorRef == flavor && opts.networks == networks
                  && |opts.blockDevice| == |vm.disks|
                  // boot indices 0, 1, 2, ... in disk order, each device backed by its disk's volume
                  && (forall i, j :: 0 <= i < j < |opts.blockDevice| ==> opts.blockDevice[i].bootIndex < opts.blockDevice[j].bootIndex)
                  && (forall i :: 0 <= i < |vm.disks| ==>
                        var resolved := ResolveVolume(faults, volumes, naming, vm, vm.disks[i], unsafeVolumeByName).result;
                        && resolved.Ok?
                        && opts.blockDevice[i] == VolumeBlockDevice(i, resolved.value))
                  // the compute service's answer is the result
                  && (r.result.Ok? <==> ServerCreateRequest(opts) !in faults)
                  && (r.result.Ok? ==> r.result.value == opts)
                  && (r.result.Err? ==> r.result == Err(Upstream(CloudError(ServerCreateRequest(opts))))))
  {
    var devices := AssembleBlockDevices(faults, volumes, naming, vm, vm.disks, 0, unsafeVolumeByName);
    AssembleInOrder(faults, volumes, naming, vm, vm.disks, 0, unsafeVolumeByName);
    var r := CreateResources(faults, volumes, naming, vm, flavor, networks, unsafeVolumeByName);
    if devices.result.Ok? {
      var opts := ServerCreateOpts(vm.configName, flavor, networks, devices.result.value);
      assert r == Step(Lift(CreateServerAnswer(faults, opts)), devices.trace + [ServerCreateRequest(opts)]);
      assert r.trace[..|r.trace| - 1] == devices.trace && r.trace[|r.trace| - 1] == ServerCreateRequest(opts);
    } else {
      assert r == Step(Err(devices.result.error), devices.trace);
    }
  }
}
