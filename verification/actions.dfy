/** The declarative actions the planner hands to the provisioning tool.
    Each action keeps a reference to the action it depends on: a partition
    to its disk, a format to its partition, a mount to its format. */
module Actions {

  /** The disk itself: device basename, model, serial, partition-table type. */
  datatype DiskAction = DiskAction(name: string, model: string, serial: string, parttype: string)

  /** Create partition `partnum` at `offset` with `size` bytes; `flag` is "" when none. */
  datatype PartitionAction = PartitionAction(parent: DiskAction, partnum: nat, offset: nat, size: int, flag: string)

  /** Make a filesystem of type `fstype` on a partition. */
  datatype FormatAction = FormatAction(parent: PartitionAction, fstype: string)

  /** Mount a formatted partition at `path`. */
  datatype MountAction = MountAction(parent: FormatAction, path: string)

  /** One entry of the emitted action list. */
  datatype Action =
    | DiskStep(disk: DiskAction)
    | PartitionStep(part: PartitionAction)
    | FormatStep(format: FormatAction)
    | MountStep(mount: MountAction)
}
