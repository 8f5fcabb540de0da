/** Rendering a planner's state: the ordered action list handed to the
    provisioning tool (`get_actions`) and the filesystem report
    (`get_fs_table`). Both walk the partitions in insertion order. */
module Plans {
  import opened Options
  import opened Actions
  import opened Blockdevs

  /** The table key of the `i`-th recorded partition, built from the
      partition action's own number. */
  function PathAt(bd: Blockdev, i: nat): string
    requires i < |bd.disk.partitions|
  {
    PartPath(bd.disk.devpath, bd.disk.partitions[i].1.partnum)
  }

  /** Every mount entry has a filesystem entry under the same path. */
  ghost predicate MountsHaveFormats(bd: Blockdev) {
    bd.mounts.Keys <= bd.filesystems.Keys
  }

  /** The actions one partition contributes: the partition, then its format
      if the filesystem table has one, then a mount of that format if the
      mount table has an entry too. */
  function PartitionSteps(bd: Blockdev, part: PartitionAction): seq<Action> {
    var path := PartPath(bd.disk.devpath, part.partnum);
    [PartitionStep(part)]
    + (if path in bd.filesystems then [FormatStep(bd.filesystems[path])] else [])
    + (if path in bd.filesystems && path in bd.mounts
       then [MountStep(MountAction(bd.filesystems[path], bd.mounts[path]))] else [])
  }

  /** The actions of the first `n` partitions, in insertion order. */
  function Steps(bd: Blockdev, n: nat): seq<Action>
    requires n <= |bd.disk.partitions|
  {
    if n == 0 then [] else Steps(bd, n - 1) + PartitionSteps(bd, bd.disk.partitions[n - 1].1)
  }

  /** The plan of an unmounted device: the disk action, then every
      partition's actions in insertion order. */
  function Plan(bd: Blockdev): seq<Action> {
    [DiskStep(bd.baseaction)] + Steps(bd, |bd.disk.partitions|)
  }

  /** The `i`-th partition has a mount entry while neither it nor any
      earlier partition has a filesystem entry: the walk then reaches the
      mount with no format action bound. */
  ghost predicate UnboundAt(bd: Blockdev, i: nat)
    requires i < |bd.disk.partitions|
  {
    && PathAt(bd, i) in bd.mounts
    && forall j :: 0 <= j <= i ==> PathAt(bd, j) !in bd.filesystems
  }

  /** `get_actions`: nothing for a mounted device; otherwise the disk action
      followed by the partitions' actions. `None` is the walk failing on a
      mount entry that no format action precedes. */
  method GetActions(bd: Blockdev, procMounts: string) returns (r: Option<seq<Action>>)
    ensures IsMounted(bd, procMounts) ==> r == Some([])
    ensures !IsMounted(bd, procMounts) && MountsHaveFormats(bd) ==> r == Some(Plan(bd))
    ensures r.None? <==> !IsMounted(bd, procMounts)
                         && exists i :: 0 <= i < |bd.disk.partitions| && UnboundAt(bd, i)
    ensures r.Some? && r.value != [] ==> r.value[0] == DiskStep(bd.baseaction)
  {
    if IsMounted(bd, procMounts) {
      return Some([]);
    }
    var parts := bd.disk.partitions;
    var actions: seq<Action> := [];
    // Like the source's loop-local, this keeps the last format action seen.
    var formatAction: Option<FormatAction> := None;
    for i := 0 to |parts|
      invariant MountsHaveFormats(bd) ==> actions == Steps(bd, i)
      invariant formatAction.None? <==> forall j :: 0 <= j < i ==> PathAt(bd, j) !in bd.filesystems
      invariant forall j :: 0 <= j < i ==> !UnboundAt(bd, j)
    {
      var part := parts[i].1;
      var path := PartPath(bd.disk.devpath, part.partnum);
      assert path == PathAt(bd, i);
      actions := actions + [PartitionStep(part)];
      if path in bd.filesystems {
        formatAction := Some(bd.filesystems[path]);
        actions := actions + [FormatStep(bd.filesystems[path])];
      }
      if path in bd.mounts {
        if formatAction.None? {
          assert UnboundAt(bd, i);
          return None;
        }
        actions := actions + [MountStep(MountAction(formatAction.value, bd.mounts[path]))];
      }
    }
    return Some([DiskStep(bd.baseaction)] + actions);
  }

  /** How many of the first `n` partitions have a filesystem entry. */
  function FormatCount(bd: Blockdev, n: nat): nat
    requires n <= |bd.disk.partitions|
  {
    if n == 0 then 0
    else FormatCount(bd, n - 1) + if PathAt(bd, n - 1) in bd.filesystems then 1 else 0
  }

  /** How many of the first `n` partitions have a mount entry. */
  function MountCount(bd: Blockdev, n: nat): nat
    requires n <= |bd.disk.partitions|
  {
    if n == 0 then 0
    else MountCount(bd, n - 1) + if PathAt(bd, n - 1) in bd.mounts then 1 else 0
  }

  /** The plan has one disk action, one action per partition, one per
      filesystem entry hit and one per mount entry hit. */
  lemma {:induction false} StepsLength(bd: Blockdev, n: nat)
    requires n <= |bd.disk.partitions| && MountsHaveFormats(bd)
    ensures |Steps(bd, n)| == n + FormatCount(bd, n) + MountCount(bd, n)
  {
    if n > 0 {
      StepsLength(bd, n - 1);
    }
  }

  lemma PlanLength(bd: Blockdev)
    requires MountsHaveFormats(bd)
    ensures var n := |bd.disk.partitions|;
            |Plan(bd)| == 1 + n + FormatCount(bd, n) + MountCount(bd, n)
  {
    StepsLength(bd, |bd.disk.partitions|);
  }

  /** The actions of the first `i` partitions are a prefix of those of the
      first `n`. */
  lemma {:induction false} StepsPrefix(bd: Blockdev, i: nat, n: nat)
    requires i <= n <= |bd.disk.partitions|
    ensures Steps(bd, i) <= Steps(bd, n)
    decreases n - i
  {
    if i < n {
      StepsPrefix(bd, i, n - 1);
    }
  }

  /** The disk action comes first, and partition `i`'s actions occupy one
      contiguous block of the plan, after those of every partition inserted
      before it. */
  lemma PlanOrder(bd: Blockdev, i: nat)
    requires i < |bd.disk.partitions|
    ensures Plan(bd)[0] == DiskStep(bd.baseaction)
    ensures var start := 1 + |Steps(bd, i)|;
            var stop := 1 + |Steps(bd, i + 1)|;
            start < stop <= |Plan(bd)|
            && Plan(bd)[start..stop] == PartitionSteps(bd, bd.disk.partitions[i].1)
  {
    var n := |bd.disk.partitions|;
    StepsPrefix(bd, i + 1, n);
    var s := Steps(bd, i + 1);
    assert s == Steps(bd, i) + PartitionSteps(bd, bd.disk.partitions[i].1);
    assert Plan(bd)[1..1 + |s|] == s;
  }

  /** One row of the filesystem report. */
  datatype FsRow = FsRow(mountpoint: string, size: int, fstype: string, partpath: string)

  /** The row for a partition with a filesystem entry: its mountpoint, or
      the fstype when it has none, its size, the fstype and its path. */
  function RowFor(bd: Blockdev, part: PartitionAction): FsRow
    requires PartPath(bd.disk.devpath, part.partnum) in bd.filesystems
  {
    var path := PartPath(bd.disk.devpath, part.partnum);
    var fs := bd.filesystems[path];
    FsRow(if path in bd.mounts then bd.mounts[path] else fs.fstype, part.size, fs.fstype, path)
  }

  /** The positions, in insertion order, of the first `n` partitions that
      have a filesystem entry. */
  function FsIndexes(bd: Blockdev, n: nat): (ix: seq<nat>)
    requires n <= |bd.disk.partitions|
    ensures forall k :: 0 <= k < |ix| ==> ix[k] < n && PathAt(bd, ix[k]) in bd.filesystems
    ensures forall k, l :: 0 <= k < l < |ix| ==> ix[k] < ix[l]
    ensures forall i :: 0 <= i < n && PathAt(bd, i) in bd.filesystems ==> i in ix
  {
    if n == 0 then []
    else FsIndexes(bd, n - 1) + if PathAt(bd, n - 1) in bd.filesystems then [n - 1] else []
  }

  /** `table` holds, in order, the rows of the partitions at positions `ix`. */
  ghost predicate RowsAt(bd: Blockdev, table: seq<FsRow>, ix: seq<nat>) {
    && |table| == |ix|
    && forall k :: 0 <= k < |ix| ==>
         && ix[k] < |bd.disk.partitions|
         && PathAt(bd, ix[k]) in bd.filesystems
         && table[k] == RowFor(bd, bd.disk.partitions[ix[k]].1)
  }

  lemma RowsAtAppend(bd: Blockdev, table: seq<FsRow>, ix: seq<nat>, i: nat)
    requires RowsAt(bd, table, ix)
    requires i < |bd.disk.partitions| && PathAt(bd, i) in bd.filesystems
    ensures RowsAt(bd, table + [RowFor(bd, bd.disk.partitions[i].1)], ix + [i])
  {
    var t := table + [RowFor(bd, bd.disk.partitions[i].1)];
    var jx := ix + [i];
    forall k | 0 <= k < |jx|
      ensures jx[k] < |bd.disk.partitions| && PathAt(bd, jx[k]) in bd.filesystems
      ensures t[k] == RowFor(bd, bd.disk.partitions[jx[k]].1)
    {
      if k < |ix| {
        assert t[k] == table[k] && jx[k] == ix[k];
      }
    }
  }

  /** `get_fs_table`: one row per partition with a filesystem entry, in
      insertion order; partitions without one are skipped. */
  method GetFsTable(bd: Blockdev) returns (table: seq<FsRow>)
    ensures RowsAt(bd, table, FsIndexes(bd, |bd.disk.partitions|))
  {
    var parts := bd.disk.partitions;
    table := [];
    for i := 0 to |parts|
      invariant RowsAt(bd, table, FsIndexes(bd, i))
    {
      ghost var ix := FsIndexes(bd, i);
      var part := parts[i].1;
      var path := PartPath(bd.disk.devpath, part.partnum);
      assert path == PathAt(bd, i);
      if path in bd.filesystems {
        var fs := bd.filesystems[path];
        var mountpoint := if path in bd.mounts then bd.mounts[path] else fs.fstype;
        assert FsRow(mountpoint, part.size, fs.fstype, path) == RowFor(bd, part);
        RowsAtAppend(bd, table, ix, i);
        table := table + [FsRow(mountpoint, part.size, fs.fstype, path)];
        assert FsIndexes(bd, i + 1) == ix + [i];
      } else {
        assert FsIndexes(bd, i + 1) == ix;
      }
    }
  }
}
