/** What holds of every planner state reachable from a fresh device through
    `add_partition` and `reset`: consistent keys between the partition map
    and the two tables and parent links, for requests of any size; and, for
    non-negative requested sizes, the space bound the code keeps (disk size
    plus the first partition's 1 MiB offset). */
module BlockdevInvariants {
  import opened Options
  import opened Text
  import opened OrderedMaps
  import opened Actions
  import opened Disks
  import opened Blockdevs
  import opened Plans

  /** The filesystem entry under `path` formats a partition of this disk
      whose number is the one `path` was built from. */
  ghost predicate FormatOwnsPath(bd: Blockdev, path: string)
    requires path in bd.filesystems
  {
    var f := bd.filesystems[path];
    && path == PartPath(bd.disk.devpath, f.parent.partnum)
    && f.parent.parent == bd.baseaction
  }

  /** ... and that number is recorded in the partition map, with a
      filesystem type. */
  ghost predicate FormatWellFormed(bd: Blockdev, path: string)
    requires path in bd.filesystems
  {
    && FormatOwnsPath(bd, path)
    && bd.filesystems[path].fstype != ""
    && bd.filesystems[path].parent.partnum in Keys(bd.disk.partitions)
  }

  /** What the plan's dependency links rest on, with nothing said about
      sizes: distinct partition numbers, every recorded partition a
      partition of this disk, every format entry under its own partition's
      path. */
  ghost predicate Linkable(bd: Blockdev) {
    && DistinctKeys(bd.disk.partitions)
    && (forall i :: 0 <= i < |bd.disk.partitions| ==> bd.disk.partitions[i].1.parent == bd.baseaction)
    && (forall path :: path in bd.filesystems ==> FormatOwnsPath(bd, path))
  }

  ghost predicate PartitionWellFormed(bd: Blockdev, e: (nat, PartitionAction)) {
    e.1.partnum == e.0 && e.1.parent == bd.baseaction && e.1.size >= 0
  }

  /** Distinct partition numbers, each stored under its own number, each a
      partition of this disk with a non-negative size. */
  ghost predicate PartitionsWellFormed(bd: Blockdev) {
    && DistinctKeys(bd.disk.partitions)
    && forall i :: 0 <= i < |bd.disk.partitions| ==> PartitionWellFormed(bd, bd.disk.partitions[i])
  }

  ghost predicate FormatsWellFormed(bd: Blockdev) {
    forall path :: path in bd.filesystems ==> FormatWellFormed(bd, path)
  }

  /** The space bound the code keeps while requested sizes are
      non-negative: at most the first partition's offset beyond the disk
      size. */
  ghost predicate SpaceBounded(bd: Blockdev) {
    UsedSpace(bd) <= bd.disk.size + FIRST_PARTITION_OFFSET
  }

  ghost predicate IdentityWellFormed(bd: Blockdev) {
    && bd.baseaction == DiskAction(Basename(bd.disk.devpath), bd.disk.model, bd.disk.serial, bd.disk.parttype)
    && bd.bcache == [] && bd.lvm == []
  }

  ghost predicate WellFormed(bd: Blockdev) {
    && PartitionsWellFormed(bd)
    && FormatsWellFormed(bd)
    && MountsHaveFormats(bd)
    && SpaceBounded(bd)
    && IdentityWellFormed(bd)
  }

  /** A freshly constructed planner is well formed and has the whole disk free. */
  lemma NewBlockdevWellFormed(devpath: string, serial: string, model: string, parttype: string,
                              requested: nat, reported: nat)
    ensures var bd := NewBlockdev(devpath, serial, model, parttype, requested, reported);
            && WellFormed(bd)
            && Freespace(bd) == (if requested != 0 then requested else reported)
  {
  }

  /** Recording a partition of this disk under its own number keeps the
      partition map well formed. */
  lemma PutKeepsPartitionsWellFormed(bd: Blockdev, after: Blockdev, part: PartitionAction)
    requires PartitionsWellFormed(bd)
    requires after.baseaction == bd.baseaction
    requires part.parent == bd.baseaction && part.size >= 0
    requires after.disk.partitions == Put(bd.disk.partitions, part.partnum, part)
    ensures PartitionsWellFormed(after)
  {
    var parts := bd.disk.partitions;
    var aparts := after.disk.partitions;
    forall i | 0 <= i < |aparts|
      ensures PartitionWellFormed(after, aparts[i])
    {
      if aparts[i].0 == part.partnum {
        assert Keys(aparts)[i] == part.partnum;
        assert IndexOf(aparts, part.partnum) == i;
      } else {
        assert i < |parts|;
        assert parts[i] == aparts[i];
        assert PartitionWellFormed(bd, parts[i]);
      }
    }
  }

  /** Format entries stay well formed when the partition map only grows and
      the one new entry formats the partition just recorded. */
  lemma FormatsStayWellFormed(bd: Blockdev, after: Blockdev, part: PartitionAction, fs: string)
    requires FormatsWellFormed(bd)
    requires after.baseaction == bd.baseaction && after.disk.devpath == bd.disk.devpath
    requires part.parent == bd.baseaction
    requires after.disk.partitions == Put(bd.disk.partitions, part.partnum, part)
    requires fs != "" ==> after.filesystems == bd.filesystems[PartPath(bd.disk.devpath, part.partnum) := FormatAction(part, fs)]
    requires fs == "" ==> after.filesystems == bd.filesystems
    ensures FormatsWellFormed(after)
  {
    var parts := bd.disk.partitions;
    var aparts := after.disk.partitions;
    assert Keys(parts) <= Keys(aparts) by {
      forall q | q in Keys(parts) ensures q in Keys(aparts) {
        var j :| 0 <= j < |parts| && Keys(parts)[j] == q;
        assert Keys(aparts)[j] == q;
      }
    }
    forall path | path in after.filesystems
      ensures FormatWellFormed(after, path)
    {
      if fs == "" || path != PartPath(bd.disk.devpath, part.partnum) {
        assert FormatWellFormed(bd, path);
      }
    }
  }

  /** An accepted partition keeps used space within size + 1 MiB. */
  lemma PutKeepsSpaceBounded(bd: Blockdev, after: Blockdev, part: PartitionAction)
    requires SpaceBounded(bd) && PartitionsWellFormed(bd)
    requires after.disk.size == bd.disk.size
    requires part.size >= 0 && part.size <= Freespace(bd)
    requires part.offset == if |bd.disk.partitions| == 0 then FIRST_PARTITION_OFFSET else 0
    requires after.disk.partitions == Put(bd.disk.partitions, part.partnum, part)
    ensures SpaceBounded(after)
  {
    var parts := bd.disk.partitions;
    if part.partnum in Keys(parts) {
      var i := IndexOf(parts, part.partnum);
      assert PartitionWellFormed(bd, parts[i]);
      assert after.disk.partitions == parts[i := (part.partnum, part)];
      SpaceOfUpdate(parts, i, (part.partnum, part));
    } else {
      SpaceOfAppend(parts, (part.partnum, part));
    }
  }

  /** Every `add_partition` call with a non-negative size, whether it
      succeeds, is rejected or fails on the unbound path, leaves a well
      formed planner behind. */
  lemma AddPartitionPreservesWellFormed(bd: Blockdev, partnum: nat, size: int, fstype: string,
                                        mountpoint: string, flag: string)
    requires WellFormed(bd) && size >= 0
    ensures WellFormed(AddPartition(bd, partnum, size, fstype, mountpoint, flag).after)
  {
    if !Accepted(bd, size, flag) {
      return;
    }
    var after := AddPartition(bd, partnum, size, fstype, mountpoint, flag).after;
    var part := RequestedPartition(bd, partnum, size, flag);
    var fs := NormaliseFstype(fstype);
    assert after.disk.partitions == Put(bd.disk.partitions, partnum, part);
    AddPartitionTables(bd, partnum, size, fstype, mountpoint, flag);
    PutKeepsPartitionsWellFormed(bd, after, part);
    FormatsStayWellFormed(bd, after, part, fs);
    PutKeepsSpaceBounded(bd, after, part);
  }

  /** One queued `add_partition` request. */
  datatype AddRequest = AddRequest(partnum: nat, size: int, fstype: string, mountpoint: string, flag: string)

  /** The planner after one request, whatever the request raised. */
  function Step(bd: Blockdev, q: AddRequest): Blockdev {
    AddPartition(bd, q.partnum, q.size, q.fstype, q.mountpoint, q.flag).after
  }

  /** The planner after issuing `reqs` in order; a call that raises leaves
      whatever state it had reached, as the source's object does. */
  function ApplyAll(bd: Blockdev, reqs: seq<AddRequest>): Blockdev
    decreases |reqs|
  {
    if |reqs| == 0 then bd else ApplyAll(Step(bd, reqs[0]), reqs[1..])
  }

  /** `add_partition` never changes the disk's identity or size. */
  lemma AddPartitionKeepsDisk(bd: Blockdev, partnum: nat, size: int, fstype: string,
                              mountpoint: string, flag: string)
    ensures var after := AddPartition(bd, partnum, size, fstype, mountpoint, flag).after;
            after.disk.(partitions := []) == bd.disk.(partitions := [])
  {
  }

  lemma {:induction false} ApplyAllKeepsDisk(bd: Blockdev, reqs: seq<AddRequest>)
    ensures ApplyAll(bd, reqs).disk.(partitions := []) == bd.disk.(partitions := [])
    decreases |reqs|
  {
    if |reqs| > 0 {
      var q := reqs[0];
      AddPartitionKeepsDisk(bd, q.partnum, q.size, q.fstype, q.mountpoint, q.flag);
      ApplyAllKeepsDisk(Step(bd, q), reqs[1..]);
    }
  }

  lemma StepPreservesWellFormed(bd: Blockdev, q: AddRequest)
    requires WellFormed(bd) && q.size >= 0
    ensures WellFormed(Step(bd, q))
  {
    AddPartitionPreservesWellFormed(bd, q.partnum, q.size, q.fstype, q.mountpoint, q.flag);
  }

  /** Any run of requests with non-negative sizes keeps the planner well
      formed. */
  lemma {:induction false} ApplyAllPreservesWellFormed(bd: Blockdev, reqs: seq<AddRequest>)
    requires WellFormed(bd)
    requires forall k :: 0 <= k < |reqs| ==> reqs[k].size >= 0
    ensures WellFormed(ApplyAll(bd, reqs))
    decreases |reqs|
  {
    if |reqs| > 0 {
      var next := Step(bd, reqs[0]);
      StepPreservesWellFormed(bd, reqs[0]);
      ApplyAllPreservesWellFormed(next, reqs[1..]);
    }
  }

  /** Whatever its size, an `add_partition` call writes a mount entry only
      together with a format entry under the same path, so every mount
      keeps its format. */
  lemma AddPartitionKeepsMountsFormatted(bd: Blockdev, partnum: nat, size: int, fstype: string,
                                         mountpoint: string, flag: string)
    requires MountsHaveFormats(bd)
    ensures MountsHaveFormats(AddPartition(bd, partnum, size, fstype, mountpoint, flag).after)
  {
    if Accepted(bd, size, flag) {
      AddPartitionTables(bd, partnum, size, fstype, mountpoint, flag);
    }
  }

  /** Whatever its size, an `add_partition` call records a partition of
      this disk under its own number and formats it under its own path. */
  lemma AddPartitionKeepsLinkable(bd: Blockdev, partnum: nat, size: int, fstype: string,
                                  mountpoint: string, flag: string)
    requires Linkable(bd)
    ensures Linkable(AddPartition(bd, partnum, size, fstype, mountpoint, flag).after)
  {
    if !Accepted(bd, size, flag) {
      return;
    }
    var after := AddPartition(bd, partnum, size, fstype, mountpoint, flag).after;
    var part := RequestedPartition(bd, partnum, size, flag);
    var parts := bd.disk.partitions;
    var aparts := after.disk.partitions;
    assert aparts == Put(parts, partnum, part);
    AddPartitionTables(bd, partnum, size, fstype, mountpoint, flag);
    forall i | 0 <= i < |aparts|
      ensures aparts[i].1.parent == after.baseaction
    {
      if aparts[i].0 == partnum {
        assert Keys(aparts)[i] == partnum;
        assert IndexOf(aparts, partnum) == i;
      } else {
        assert parts[i] == aparts[i];
      }
    }
    forall path | path in after.filesystems
      ensures FormatOwnsPath(after, path)
    {
      if fstype == "" || path != PartPath(bd.disk.devpath, partnum) {
        assert FormatOwnsPath(bd, path);
      }
    }
  }

  lemma {:induction false} ApplyAllKeepsMountsFormatted(bd: Blockdev, reqs: seq<AddRequest>)
    requires MountsHaveFormats(bd)
    ensures MountsHaveFormats(ApplyAll(bd, reqs))
    decreases |reqs|
  {
    if |reqs| > 0 {
      var q := reqs[0];
      AddPartitionKeepsMountsFormatted(bd, q.partnum, q.size, q.fstype, q.mountpoint, q.flag);
      ApplyAllKeepsMountsFormatted(Step(bd, q), reqs[1..]);
    }
  }

  lemma {:induction false} ApplyAllKeepsLinkable(bd: Blockdev, reqs: seq<AddRequest>)
    requires Linkable(bd)
    ensures Linkable(ApplyAll(bd, reqs))
    decreases |reqs|
  {
    if |reqs| > 0 {
      var q := reqs[0];
      AddPartitionKeepsLinkable(bd, q.partnum, q.size, q.fstype, q.mountpoint, q.flag);
      ApplyAllKeepsLinkable(Step(bd, q), reqs[1..]);
    }
  }

  /** From a fresh device, any run of requests with non-negative sizes
      leaves mounts only under formatted paths (so `get_actions` never
      fails) and overruns the disk by at most the first partition's 1 MiB. */
  lemma PlannedDeviceBounds(devpath: string, serial: string, model: string, parttype: string,
                            requested: nat, reported: nat, reqs: seq<AddRequest>)
    requires forall k :: 0 <= k < |reqs| ==> reqs[k].size >= 0
    ensures var bd := NewBlockdev(devpath, serial, model, parttype, requested, reported);
            var final := ApplyAll(bd, reqs);
            && MountsHaveFormats(final)
            && UsedSpace(final) <= bd.disk.size + FIRST_PARTITION_OFFSET
  {
    var bd := NewBlockdev(devpath, serial, model, parttype, requested, reported);
    NewBlockdevWellFormed(devpath, serial, model, parttype, requested, reported);
    ApplyAllPreservesWellFormed(bd, reqs);
    ApplyAllKeepsDisk(bd, reqs);
  }

  /** The size bound is not `usedspace <= size`: on any disk with no
      partition, a partition as large as the whole disk passes the space
      check, and the 1 MiB offset then pushes free space below zero. */
  lemma OffsetCanOverrunDisk(bd: Blockdev, partnum: nat)
    requires bd.disk.partitions == []
    ensures var r := AddPartition(bd, partnum, bd.disk.size, "ext4", "/", "");
            && r.raised == None
            && UsedSpace(r.after) == bd.disk.size + FIRST_PARTITION_OFFSET
            && UsedSpace(r.after) > r.after.disk.size
            && Freespace(r.after) == -(FIRST_PARTITION_OFFSET as int)
            && !Available(r.after)
  {
    AddFreshPartitionSpace(bd, partnum, bd.disk.size, "ext4", "/", "");
  }

  /** The bound needs non-negative sizes, which the source does not demand:
      a partition of −4 MiB on an empty disk, replaced under the same number
      by one as large as the free space that leaves, ends 3 MiB beyond the
      disk size, since the replacement gets offset 0. */
  lemma NegativeSizeBreaksBound(bd: Blockdev, partnum: nat)
    requires bd.disk.partitions == []
    ensures var first := AddPartition(bd, partnum, -4 * FIRST_PARTITION_OFFSET, "", "", "");
            var second := AddPartition(first.after, partnum, Freespace(first.after), "", "", "");
            && first.raised == None && second.raised == None
            && UsedSpace(second.after) == bd.disk.size + 3 * FIRST_PARTITION_OFFSET
            && !SpaceBounded(second.after)
  {
    var size := -4 * FIRST_PARTITION_OFFSET;
    var first := AddPartition(bd, partnum, size, "", "", "").after;
    AddFreshPartitionSpace(bd, partnum, size, "", "", "");
    AddPartitionRecordsPartition(bd, partnum, size, "", "", "");
    assert first.disk.partitions == [(partnum, RequestedPartition(bd, partnum, size, ""))];
    AddPartitionSpace(first, partnum, Freespace(first), "", "", "");
    AddPartitionKeepsDisk(first, partnum, Freespace(first), "", "", "");
  }

  /** `Linked(base, s, k)`: the `k`-th action depends on the disk action
      `base`, which heads the list, or follows the action it needs: a format
      comes right after a partition with the number it formats, a mount
      right after the format it mounts. */
  ghost predicate Linked(base: DiskAction, s: seq<Action>, k: nat)
    requires 0 < k < |s|
  {
    match s[k]
    case DiskStep(_) => false
    case PartitionStep(p) => p.parent == base
    case FormatStep(f) =>
      && s[k - 1].PartitionStep?
      && s[k - 1].part.partnum == f.parent.partnum
      && f.parent.parent == base
    case MountStep(m) => s[k - 1] == FormatStep(m.parent)
  }

  ghost predicate AllLinked(base: DiskAction, s: seq<Action>) {
    forall k :: 0 < k < |s| ==> Linked(base, s, k)
  }

  /** A block that opens with a partition of the disk and is linked inside
      can be appended to a linked list. */
  lemma AppendLinked(base: DiskAction, prev: seq<Action>, block: seq<Action>)
    requires 0 < |prev| && AllLinked(base, prev)
    requires 0 < |block| && block[0].PartitionStep? && block[0].part.parent == base
    requires AllLinked(base, block)
    ensures AllLinked(base, prev + block)
  {
    var s := prev + block;
    forall k | 0 < k < |s| ensures Linked(base, s, k) {
      if k < |prev| {
        assert Linked(base, prev, k);
        assert s[k] == prev[k] && s[k - 1] == prev[k - 1];
      } else if k > |prev| {
        var j := k - |prev|;
        assert Linked(base, block, j);
        assert s[k] == block[j] && s[k - 1] == block[j - 1];
      }
    }
  }

  /** A partition's own actions are linked when the partition belongs to
      the disk and its format entry, if any, formats that partition. */
  lemma PartitionStepsLinked(bd: Blockdev, part: PartitionAction)
    requires part.parent == bd.baseaction
    requires var path := PartPath(bd.disk.devpath, part.partnum);
             path in bd.filesystems ==>
               && bd.filesystems[path].parent.partnum == part.partnum
               && bd.filesystems[path].parent.parent == bd.baseaction
    ensures AllLinked(bd.baseaction, PartitionSteps(bd, part))
  {
  }

  lemma {:induction false} StepsLinked(bd: Blockdev, n: nat)
    requires Linkable(bd) && n <= |bd.disk.partitions|
    ensures AllLinked(bd.baseaction, [DiskStep(bd.baseaction)] + Steps(bd, n))
  {
    if n > 0 {
      StepsLinked(bd, n - 1);
      var part := bd.disk.partitions[n - 1].1;
      var path := PartPath(bd.disk.devpath, part.partnum);
      if path in bd.filesystems {
        assert FormatOwnsPath(bd, path);
        PartPathInjective(bd.disk.devpath, part.partnum, bd.filesystems[path].parent.partnum);
      }
      PartitionStepsLinked(bd, part);
      AppendLinked(bd.baseaction, [DiskStep(bd.baseaction)] + Steps(bd, n - 1), PartitionSteps(bd, part));
      assert [DiskStep(bd.baseaction)] + Steps(bd, n)
          == [DiskStep(bd.baseaction)] + Steps(bd, n - 1) + PartitionSteps(bd, part);
    }
  }

  /** The plan of a linkable planner opens with the disk action; every
      partition belongs to that disk, every format follows a partition with
      the number it formats, and every mount follows the format it mounts. */
  lemma PlanLinksParents(bd: Blockdev)
    requires Linkable(bd)
    ensures Plan(bd)[0] == DiskStep(bd.baseaction)
    ensures AllLinked(bd.baseaction, Plan(bd))
  {
    StepsLinked(bd, |bd.disk.partitions|);
  }

  /** From a fresh device, any run of requests, of any sizes, leaves every
      mount with a format entry (so `get_actions` never fails) and a plan
      linked as `PlanLinksParents` describes. */
  lemma PlannedDevicePlans(devpath: string, serial: string, model: string, parttype: string,
                           requested: nat, reported: nat, reqs: seq<AddRequest>)
    ensures var final := ApplyAll(NewBlockdev(devpath, serial, model, parttype, requested, reported), reqs);
            && MountsHaveFormats(final)
            && Plan(final)[0] == DiskStep(final.baseaction)
            && AllLinked(final.baseaction, Plan(final))
  {
    var bd := NewBlockdev(devpath, serial, model, parttype, requested, reported);
    assert Linkable(bd);
    ApplyAllKeepsMountsFormatted(bd, reqs);
    ApplyAllKeepsLinkable(bd, reqs);
    PlanLinksParents(ApplyAll(bd, reqs));
  }

  /** `reset` forgets every queued partition, filesystem and mount and
      keeps the device's identity, size and disk action: the whole disk is
      free again and the plan is the disk action alone. On a well formed
      planner it gives back exactly the freshly constructed one. */
  lemma ResetRestoresPristine(bd: Blockdev)
    ensures var r := Reset(bd);
            && r.disk.partitions == [] && r.filesystems == map[] && r.mounts == map[]
            && r.bcache == [] && r.lvm == []
            && r.disk.(partitions := []) == bd.disk.(partitions := [])
            && r.baseaction == bd.baseaction
            && Freespace(r) == bd.disk.size
            && (Available(r) <==> bd.disk.size > 0)
            && MountsHaveFormats(r)
            && Plan(r) == [DiskStep(bd.baseaction)]
    ensures WellFormed(bd) ==>
              && WellFormed(Reset(bd))
              && Reset(bd) == NewBlockdev(bd.disk.devpath, bd.disk.serial, bd.disk.model,
                                          bd.disk.parttype, bd.disk.size, 0)
  {
  }
}
