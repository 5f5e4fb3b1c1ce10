/**
 * The source VMware virtual machine as the migration reads it: its reference,
 * its configured name, and its disks and network cards, already selected from
 * the device list by type and given in the order the device list holds them.
 */
module Inventory {

  newtype int32 = x: int | -0x8000_0000 <= x < 0x8000_0000

  /** A virtual disk: its per-VM device key and its (deprecated) disk object identifier. */
  datatype VirtualDisk = VirtualDisk(key: int32, diskObjectId: string)

  /** A virtual ethernet card: its MAC address and its device description. */
  datatype EthernetCard = EthernetCard(macAddress: string, deviceLabel: string, deviceSummary: string)

  datatype VirtualMachine = VirtualMachine(
    ref: string,
    configName: string,
    disks: seq<VirtualDisk>,
    nics: seq<EthernetCard>)

  /** `VolumeName` and `VolumeNameOld`, which the volume lookups filter on.
      They are defined elsewhere in the repository and are arbitrary here. */
  datatype VolumeNaming = VolumeNaming(
    current: (VirtualMachine, VirtualDisk) -> string,
    legacy: (VirtualMachine, VirtualDisk) -> string)
}
