/** The planner for one device: a disk, a filesystem table and a mount
    table (both keyed by the partition path `devpath + str(partnum)`), the
    space accounting over the disk's partitions, and `add_partition`. */
module Blockdevs {
  import opened Options
  import opened Text
  import opened OrderedMaps
  import opened Actions
  import opened Disks

  /** The first partition starts 1 MiB into the disk. */
  const FIRST_PARTITION_OFFSET: nat := 0x10_0000

  /** The partition flags `add_partition` accepts. */
  const VALID_FLAGS: seq<string> := ["boot", "lvm", "raid", "bios_grub"]

  /** The filesystem type recorded for a request of "swap". */
  const SWAP_FSTYPE: string := "linux-swap(v1)"

  datatype Blockdev = Blockdev(
    disk: Disk,
    filesystems: map<string, FormatAction>,
    mounts: map<string, string>,
    bcache: seq<string>,
    lvm: seq<string>,
    baseaction: DiskAction)

  /** A planner for a freshly discovered device, with nothing queued. */
  function NewBlockdev(devpath: string, serial: string, model: string, parttype: string,
                       requested: nat, reported: nat): Blockdev
  {
    var d := NewDisk(devpath, serial, model, parttype, requested, reported);
    Blockdev(d, map[], map[], [], [], DiskAction(Basename(d.devpath), d.model, d.serial, d.parttype))
  }

  /** Drop every queued partition, filesystem and mount. */
  function Reset(bd: Blockdev): Blockdev {
    bd.(disk := ResetDisk(bd.disk), filesystems := map[], mounts := map[], bcache := [], lvm := [])
  }

  /** The key both tables use for partition `partnum`. */
  function PartPath(devpath: string, partnum: nat): string {
    devpath + NatToString(partnum)
  }

  /** Different partition numbers on one device have different paths. */
  lemma PartPathInjective(devpath: string, a: nat, b: nat)
    ensures PartPath(devpath, a) == PartPath(devpath, b) ==> a == b
  {
    if PartPath(devpath, a) == PartPath(devpath, b) {
      assert NatToString(a) == PartPath(devpath, a)[|devpath|..];
      assert NatToString(b) == PartPath(devpath, b)[|devpath|..];
      NatToStringInjective(a, b);
    }
  }

  /** The bytes one partition takes: its offset plus its size. */
  function Extent(p: PartitionAction): int {
    p.offset + p.size
  }

  /** The sum of the extents of the given partitions. */
  function SpaceOf(parts: seq<(nat, PartitionAction)>): int {
    if |parts| == 0 then 0 else SpaceOf(parts[..|parts| - 1]) + Extent(parts[|parts| - 1].1)
  }

  /** Appending a partition adds its extent. */
  lemma SpaceOfAppend(parts: seq<(nat, PartitionAction)>, e: (nat, PartitionAction))
    ensures SpaceOf(parts + [e]) == SpaceOf(parts) + Extent(e.1)
  {
    assert (parts + [e])[..|parts|] == parts;
  }

  /** Replacing one partition trades its extent for the new one's. */
  lemma {:induction false} SpaceOfUpdate(parts: seq<(nat, PartitionAction)>, i: nat, e: (nat, PartitionAction))
    requires i < |parts|
    ensures SpaceOf(parts[i := e]) == SpaceOf(parts) - Extent(parts[i].1) + Extent(e.1)
    decreases |parts|
  {
    var n := |parts| - 1;
    if i == n {
      assert parts[i := e][..n] == parts[..n];
    } else {
      assert parts[i := e][..n] == parts[..n][i := e];
      SpaceOfUpdate(parts[..n], i, e);
    }
  }

  /** `usedspace`: the extents of all recorded partitions together. */
  function UsedSpace(bd: Blockdev): int {
    SpaceOf(bd.disk.partitions)
  }

  /** `freespace`: disk size minus used space; negative once the partitions
      overrun the disk. */
  function Freespace(bd: Blockdev): int {
    bd.disk.size - UsedSpace(bd)
  }

  /** `available`: some free space is left. */
  predicate Available(bd: Blockdev) {
    Freespace(bd) > 0
  }

  /** `lastpartnumber`: how many partitions are recorded. */
  function LastPartNumber(bd: Blockdev): nat {
    |bd.disk.partitions|
  }

  /** `is_mounted`, given the text of the system mount table: the pattern
      `devpath.*` matches iff `devpath` occurs anywhere in the text. */
  predicate IsMounted(bd: Blockdev, procMounts: string) {
    Contains(procMounts, bd.disk.devpath)
  }

  /** A mount table with an entry naming the device marks it as mounted. */
  lemma MountedWhenListed(bd: Blockdev, before: string, after: string)
    ensures IsMounted(bd, before + bd.disk.devpath + after)
  {
    ContainsInfix(before, bd.disk.devpath, after);
  }

  predicate FlagAllowed(flag: string) {
    flag == "" || flag in VALID_FLAGS
  }

  /** "swap" is recorded under its partitioning-tool name. */
  function NormaliseFstype(fstype: string): string {
    if fstype == "swap" then SWAP_FSTYPE else fstype
  }

  /** The offset a new partition gets: 1 MiB on an empty disk, else 0. */
  function NextOffset(bd: Blockdev): nat {
    if |bd.disk.partitions| == 0 then FIRST_PARTITION_OFFSET else 0
  }

  /** The two checks `add_partition` makes before it records anything. */
  predicate Accepted(bd: Blockdev, size: int, flag: string) {
    size <= Freespace(bd) && FlagAllowed(flag)
  }

  datatype AddError =
    | InsufficientSpace(requested: int, free: int)
    | InvalidFlag(flag: string)
      /** A mountpoint was given without a filesystem type: the path the
          mount would be keyed by is never bound, after the partition has
          already been recorded. */
    | UnboundPartPath

  /** The state after an `add_partition` call and what it raised, if anything. */
  datatype AddResult = AddResult(after: Blockdev, raised: Option<AddError>)

  /** `add_partition(partnum, size, fstype, mountpoint, flag)`; "" stands for
      an absent fstype, mountpoint or flag. */
  function AddPartition(bd: Blockdev, partnum: nat, size: int, fstype: string,
                        mountpoint: string, flag: string): (r: AddResult)
    ensures r.raised == Some(InsufficientSpace(size, Freespace(bd))) <==> size > Freespace(bd)
    ensures r.raised == Some(InvalidFlag(flag)) <==> size <= Freespace(bd) && !FlagAllowed(flag)
    ensures r.raised == Some(UnboundPartPath) <==> Accepted(bd, size, flag) && mountpoint != "" && fstype == ""
    ensures r.raised == None <==> Accepted(bd, size, flag) && (mountpoint == "" || fstype != "")
    ensures !Accepted(bd, size, flag) ==> r.after == bd
  {
    if size > Freespace(bd) then
      AddResult(bd, Some(InsufficientSpace(size, Freespace(bd))))
    else
      var fs := NormaliseFstype(fstype);
      var offset := NextOffset(bd);
      if flag != "" && flag !in VALID_FLAGS then
        AddResult(bd, Some(InvalidFlag(flag)))
      else
        var part := PartitionAction(bd.baseaction, partnum, offset, size, flag);
        var withPart := bd.(disk := bd.disk.(partitions := Put(bd.disk.partitions, partnum, part)));
        var path := PartPath(bd.disk.devpath, partnum);
        var withFs :=
          if fs != "" then withPart.(filesystems := withPart.filesystems[path := FormatAction(part, fs)])
          else withPart;
        if mountpoint == "" then AddResult(withFs, None)
        else if fs == "" then AddResult(withFs, Some(UnboundPartPath))
        else AddResult(withFs.(mounts := withFs.mounts[path := mountpoint]), None)
  }

  /** The partition action an accepted request records. */
  function RequestedPartition(bd: Blockdev, partnum: nat, size: int, flag: string): PartitionAction {
    PartitionAction(bd.baseaction, partnum, NextOffset(bd), size, flag)
  }

  /** An accepted request records its partition under `partnum`: in place
      when the number is already used, at the end otherwise; every other
      partition stays where and what it was, and the disk's identity, the
      base action and the auxiliary lists do not change. */
  lemma AddPartitionRecordsPartition(bd: Blockdev, partnum: nat, size: int, fstype: string,
                                     mountpoint: string, flag: string)
    requires Accepted(bd, size, flag)
    ensures var parts := bd.disk.partitions;
            var after := AddPartition(bd, partnum, size, fstype, mountpoint, flag).after;
            && Lookup(after.disk.partitions, partnum) == Some(RequestedPartition(bd, partnum, size, flag))
            && Keys(after.disk.partitions) == (if partnum in Keys(parts) then Keys(parts) else Keys(parts) + [partnum])
            && (forall i :: 0 <= i < |parts| && parts[i].0 != partnum ==> after.disk.partitions[i] == parts[i])
            && LastPartNumber(after) == LastPartNumber(bd) + (if partnum in Keys(parts) then 0 else 1)
            && after.disk.(partitions := []) == bd.disk.(partitions := [])
            && after.baseaction == bd.baseaction && after.bcache == bd.bcache && after.lvm == bd.lvm
  {
    var after := AddPartition(bd, partnum, size, fstype, mountpoint, flag).after;
    assert |after.disk.partitions| == |Keys(after.disk.partitions)|;
  }

  /** The offset rule: 1 MiB for the first partition of an empty disk and 0
      for every later one, including a replacement of the first. */
  lemma AddPartitionOffset(bd: Blockdev, partnum: nat, size: int, fstype: string,
                           mountpoint: string, flag: string)
    requires Accepted(bd, size, flag)
    ensures var after := AddPartition(bd, partnum, size, fstype, mountpoint, flag).after;
            var p := Lookup(after.disk.partitions, partnum);
            && p.Some?
            && (LastPartNumber(bd) == 0 ==> p.value.offset == FIRST_PARTITION_OFFSET)
            && (LastPartNumber(bd) != 0 ==> p.value.offset == 0)
  {
    AddPartitionRecordsPartition(bd, partnum, size, fstype, mountpoint, flag);
  }

  /** Free space after an accepted request: down by the new partition's
      offset and size, up by the extent of the partition it replaced. */
  lemma AddPartitionSpace(bd: Blockdev, partnum: nat, size: int, fstype: string,
                          mountpoint: string, flag: string)
    requires Accepted(bd, size, flag)
    ensures var parts := bd.disk.partitions;
            var after := AddPartition(bd, partnum, size, fstype, mountpoint, flag).after;
            var replaced := if partnum in Keys(parts) then Extent(parts[IndexOf(parts, partnum)].1) else 0;
            Freespace(after) == Freespace(bd) + replaced - (NextOffset(bd) + size)
  {
    var parts := bd.disk.partitions;
    var part := RequestedPartition(bd, partnum, size, flag);
    if partnum in Keys(parts) {
      SpaceOfUpdate(parts, IndexOf(parts, partnum), (partnum, part));
    } else {
      SpaceOfAppend(parts, (partnum, part));
    }
  }

  /** A fresh partition number lowers free space by exactly offset + size. */
  lemma AddFreshPartitionSpace(bd: Blockdev, partnum: nat, size: int, fstype: string,
                               mountpoint: string, flag: string)
    requires Accepted(bd, size, flag) && partnum !in Keys(bd.disk.partitions)
    ensures Freespace(AddPartition(bd, partnum, size, fstype, mountpoint, flag).after)
            == Freespace(bd) - NextOffset(bd) - size
  {
    AddPartitionSpace(bd, partnum, size, fstype, mountpoint, flag);
  }

  /** The tables after an accepted request: a format record (with "swap"
      normalised) is written under the partition's path iff an fstype is
      given, a mountpoint is written under the same path iff both a
      mountpoint and an fstype are given, and no other entry changes. */
  lemma AddPartitionTables(bd: Blockdev, partnum: nat, size: int, fstype: string,
                           mountpoint: string, flag: string)
    requires Accepted(bd, size, flag)
    ensures var after := AddPartition(bd, partnum, size, fstype, mountpoint, flag).after;
            var path := PartPath(bd.disk.devpath, partnum);
            var part := RequestedPartition(bd, partnum, size, flag);
            && (fstype != "" ==> after.filesystems == bd.filesystems[path := FormatAction(part, NormaliseFstype(fstype))])
            && (fstype == "" ==> after.filesystems == bd.filesystems)
            && (fstype != "" && mountpoint != "" ==> after.mounts == bd.mounts[path := mountpoint])
            && (fstype == "" || mountpoint == "" ==> after.mounts == bd.mounts)
  {
  }

  /** Swap is recorded as "linux-swap(v1)"; every other fstype verbatim. */
  lemma AddPartitionNormalisesSwap(bd: Blockdev, partnum: nat, size: int, fstype: string,
                                   mountpoint: string, flag: string)
    requires Accepted(bd, size, flag) && fstype != ""
    ensures var after := AddPartition(bd, partnum, size, fstype, mountpoint, flag).after;
            var path := PartPath(bd.disk.devpath, partnum);
            && path in after.filesystems
            && (fstype == "swap" ==> after.filesystems[path].fstype == "linux-swap(v1)")
            && (fstype != "swap" ==> after.filesystems[path].fstype == fstype)
            && after.filesystems[path].fstype != "swap"
  {
  }
}
