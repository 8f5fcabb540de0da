/** The source's example session: a 128 GiB disk, an 8 GiB root partition
    flagged `bios_grub`, then a 2 GiB `/home` partition. The lemmas hold
    for any device in that starting state; `/dev/sda` is one. */
module DemoScenario {
  import opened Options
  import opened OrderedMaps
  import opened Actions
  import opened Blockdevs
  import opened Plans

  const GB: nat := 0x4000_0000

  function Sda(): Blockdev {
    NewBlockdev("/dev/sda", "QM_TARGET_01", "QEMU SSD DISK", "gpt", 128 * GB, 0)
  }

  /** A planner with nothing queued on a disk of `size` bytes. */
  ghost predicate Pristine(bd: Blockdev, size: nat) {
    && bd.disk.size == size
    && bd.disk.partitions == []
    && bd.filesystems == map[]
    && bd.mounts == map[]
  }

  /** The example's disk starts with nothing queued on its 128 GiB. */
  lemma SdaPristine()
    ensures Pristine(Sda(), 128 * GB)
    ensures Sda().baseaction == DiskAction("sda", "QEMU SSD DISK", "QM_TARGET_01", "gpt")
  {
    assert Text.Basename("/dev/sda") == "sda";
  }

  function Root(bd: Blockdev): PartitionAction {
    PartitionAction(bd.baseaction, 1, FIRST_PARTITION_OFFSET, 8 * GB, "bios_grub")
  }

  function Home(bd: Blockdev): PartitionAction {
    PartitionAction(bd.baseaction, 2, 0, 2 * GB, "")
  }

  /** The root partition is accepted, takes 8 GiB plus the 1 MiB offset, and
      is formatted ext4 and mounted at `/`. */
  lemma DemoFirstAdd(bd: Blockdev)
    requires Pristine(bd, 128 * GB)
    ensures var r := AddPartition(bd, 1, 8 * GB, "ext4", "/", "bios_grub");
            var p1 := PartPath(bd.disk.devpath, 1);
            && r.raised == None
            && Freespace(r.after) == 128 * GB - FIRST_PARTITION_OFFSET - 8 * GB
            && r.after.disk.partitions == [(1, Root(bd))]
            && r.after.filesystems == map[p1 := FormatAction(Root(bd), "ext4")]
            && r.after.mounts == map[p1 := "/"]
            && r.after.disk.(partitions := []) == bd.disk.(partitions := [])
            && r.after.baseaction == bd.baseaction
  {
    assert "bios_grub" in VALID_FLAGS;
    AddFreshPartitionSpace(bd, 1, 8 * GB, "ext4", "/", "bios_grub");
  }

  /** The `/home` partition is accepted after it; 128 GiB - 1 MiB - 10 GiB
      stay free, and the map holds root then home, each formatted and
      mounted. */
  lemma DemoSecondAdd(bd: Blockdev)
    requires Pristine(bd, 128 * GB)
    ensures var first := AddPartition(bd, 1, 8 * GB, "ext4", "/", "bios_grub");
            var r := AddPartition(first.after, 2, 2 * GB, "ext4", "/home", "");
            var p1 := PartPath(bd.disk.devpath, 1);
            var p2 := PartPath(bd.disk.devpath, 2);
            && r.raised == None
            && Freespace(r.after) == 128 * GB - FIRST_PARTITION_OFFSET - 10 * GB
            && r.after.disk.partitions == [(1, Root(bd)), (2, Home(bd))]
            && r.after.filesystems == map[p1 := FormatAction(Root(bd), "ext4"), p2 := FormatAction(Home(bd), "ext4")]
            && r.after.mounts == map[p1 := "/", p2 := "/home"]
            && r.after.disk.devpath == bd.disk.devpath
            && r.after.baseaction == bd.baseaction
  {
    DemoFirstAdd(bd);
    var b1 := AddPartition(bd, 1, 8 * GB, "ext4", "/", "bios_grub").after;
    assert Keys(b1.disk.partitions) == [1];
    AddFreshPartitionSpace(b1, 2, 2 * GB, "ext4", "/home", "");
  }

  /** A third request one byte larger than what is left is refused with
      the exact figures, and nothing changes. */
  lemma DemoOversizedAdd(bd: Blockdev)
    requires Pristine(bd, 128 * GB)
    ensures var first := AddPartition(bd, 1, 8 * GB, "ext4", "/", "bios_grub");
            var second := AddPartition(first.after, 2, 2 * GB, "ext4", "/home", "");
            var free := 128 * GB - FIRST_PARTITION_OFFSET - 10 * GB;
            var third := AddPartition(second.after, 3, free + 1, "ext4", "/srv", "");
            && third.raised == Some(InsufficientSpace(free + 1, free))
            && third.after == second.after
  {
    DemoSecondAdd(bd);
  }

  /** The plan of a disk with two formatted and mounted partitions. */
  lemma TwoPartitionPlan(bd: Blockdev, p: PartitionAction, q: PartitionAction,
                         f: FormatAction, g: FormatAction, m: string, n: string)
    requires bd.disk.partitions == [(p.partnum, p), (q.partnum, q)]
    requires PartPath(bd.disk.devpath, p.partnum) != PartPath(bd.disk.devpath, q.partnum)
    requires bd.filesystems == map[PartPath(bd.disk.devpath, p.partnum) := f,
                                   PartPath(bd.disk.devpath, q.partnum) := g]
    requires bd.mounts == map[PartPath(bd.disk.devpath, p.partnum) := m,
                              PartPath(bd.disk.devpath, q.partnum) := n]
    ensures MountsHaveFormats(bd)
    ensures Plan(bd) == [DiskStep(bd.baseaction),
                         PartitionStep(p), FormatStep(f), MountStep(MountAction(f, m)),
                         PartitionStep(q), FormatStep(g), MountStep(MountAction(g, n))]
  {
    assert PartitionSteps(bd, p) == [PartitionStep(p), FormatStep(f), MountStep(MountAction(f, m))];
    assert PartitionSteps(bd, q) == [PartitionStep(q), FormatStep(g), MountStep(MountAction(g, n))];
    assert bd.disk.partitions[0].1 == p && bd.disk.partitions[1].1 == q;
    assert Steps(bd, 1) == Steps(bd, 0) + PartitionSteps(bd, p) == PartitionSteps(bd, p);
    assert Steps(bd, 2) == PartitionSteps(bd, p) + PartitionSteps(bd, q);
    assert Plan(bd) == [DiskStep(bd.baseaction)] + Steps(bd, 2);
  }

  /** The plan after the session: the disk action, then partition, format
      and mount for `/` and then for `/home`. */
  lemma DemoPlan(bd: Blockdev)
    requires Pristine(bd, 128 * GB)
    ensures var first := AddPartition(bd, 1, 8 * GB, "ext4", "/", "bios_grub");
            var second := AddPartition(first.after, 2, 2 * GB, "ext4", "/home", "");
            var root := FormatAction(Root(bd), "ext4");
            var home := FormatAction(Home(bd), "ext4");
            && MountsHaveFormats(second.after)
            && Plan(second.after) == [DiskStep(bd.baseaction),
                                      PartitionStep(Root(bd)), FormatStep(root), MountStep(MountAction(root, "/")),
                                      PartitionStep(Home(bd)), FormatStep(home), MountStep(MountAction(home, "/home"))]
  {
    DemoSecondAdd(bd);
    PartPathInjective(bd.disk.devpath, 1, 2);
    var first := AddPartition(bd, 1, 8 * GB, "ext4", "/", "bios_grub");
    var second := AddPartition(first.after, 2, 2 * GB, "ext4", "/home", "");
    TwoPartitionPlan(second.after, Root(bd), Home(bd),
                     FormatAction(Root(bd), "ext4"), FormatAction(Home(bd), "ext4"), "/", "/home");
  }
}
