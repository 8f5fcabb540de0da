/** One physical or virtual block device: its identity, its size in bytes
    and its partitions in insertion order, keyed by partition number. */
module Disks {
  import opened Actions

  datatype Disk = Disk(
    devpath: string,
    serial: string,
    model: string,
    parttype: string,
    size: nat,
    partitions: seq<(nat, PartitionAction)>)

  /** The size a new disk records: an explicit nonzero size as given,
      otherwise what the device reports (0 when it is not present). */
  function ResolveSize(requested: nat, reported: nat): nat {
    if requested != 0 then requested else reported
  }

  /** A disk with no partitions. */
  function NewDisk(devpath: string, serial: string, model: string, parttype: string,
                   requested: nat, reported: nat): Disk
  {
    Disk(devpath, serial, model, parttype, ResolveSize(requested, reported), [])
  }

  /** Forget every partition; identity and size stay. */
  function ResetDisk(d: Disk): Disk {
    d.(partitions := [])
  }
}
