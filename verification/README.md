# Disk-layout planner model

A Dafny model of subiquity's block-device planner (`subiquity/models/blockdev.py`).
A `Blockdev` owns one `Disk` (device path, serial, model, partition-table type,
size in bytes and an insertion-ordered map from partition number to partition
action). It also keeps two tables keyed by the partition path
`devpath + str(partnum)`: a filesystem table of format actions and a mount table of
mountpoints. Callers queue partitions with `add_partition`, query the space
accounting (`usedspace`, `freespace`, `available`), and render the state into
two outputs:

- the ordered action list for the provisioning tool (`get_actions`);
- a filesystem report (`get_fs_table`).

Structure (one module per component):

- `options.dfy` — `Options.Option`.
- `text.dfy` — `Text`: `str(n)` for partition numbers with its inverse, `os.path.basename`, substring search.
- `ordered_map.dfy` — `OrderedMaps`: `OrderedDict` as a sequence of pairs. `Put` is `update`: it replaces an entry in place or appends a new one.
- `actions.dfy` — `Actions`: disk, partition, format and mount actions. Each one holds a reference to the action it depends on.
- `disk.dfy` — `Disks`: the `Disk` record, its size resolution and `reset`.
- `blockdev.dfy` — `Blockdevs`: the planner, the space accounting, `is_mounted`, `add_partition` and the lemmas about its effect.
- `plan.dfy` — `Plans`: `get_actions` and `get_fs_table`. Both are methods that mirror the source's loops, and each is checked against a reference definition.
- `invariants.dfy` — `BlockdevInvariants`: the well-formedness invariant and its preservation, the dependency links in the plan, and `reset`.
- `scenario.dfy` — `DemoScenario`: the source's example session on a 128 GiB disk.

Modelling choices:

- All values are immutable. `add_partition` returns an `AddResult`, which is the state after the call plus the error it raised, if any.
  - The source raises a plain `Exception` whose message names the cause. The constructors `InsufficientSpace(requested, free)` and `InvalidFlag(flag)` stand for the two messages ("Not enough space", "Flag ... is not valid") and carry the figures those messages print.
  - A rejection (`InsufficientSpace`, `InvalidFlag`) returns the state unchanged. Both checks come before the first write.
  - A mountpoint given without an fstype makes the source fail after the partition is already recorded: `partpath` is never bound. The model reports this as `UnboundPartPath` and returns the state with the partition recorded. No precondition excludes the case.
- An absent fstype, mountpoint or flag is the empty string. The source tests all three for truthiness, so `None` and `""` behave the same.
- The disk size is a parameter. An explicit nonzero size is used as given. Otherwise the size the device reports is used, which is 0 when the device is absent.
- The mount state is the text of the system mount table, passed in as a parameter. The source searches that text with the pattern `devpath.*`, which matches exactly when `devpath` occurs somewhere in the text.
- `get_actions` returns `None` where the source would fail on an unbound `format_action`. As in the source, the walk reuses the last format action it saw.
- Partitions are walked in first-insertion order, not numeric order. The offset is 1 MiB on an empty disk and 0 otherwise. The space check compares `size` with free space and leaves out the offset.

Consequences of the code that the model makes explicit:

- `usedspace` can exceed `size` by the first partition's 1 MiB offset. On an empty disk, a partition as large as the whole disk passes the space check, and the offset then drives free space to −1 MiB (`OffsetCanOverrunDisk`).
- For non-negative requested sizes, used space never exceeds `size + 1 MiB` (`PlannedDeviceBounds`). A negative size, which the source accepts, breaks that bound too (`NegativeSizeBreaksBound`).
- Whatever the sizes, every mount entry has a format entry, so the walk in `get_actions` never fails from a fresh device (`PlannedDevicePlans`).
- Partitions are emitted in first-insertion order, whatever their numbers.
- In the demo session the first addition lowers free space by 8 GiB plus the 1 MiB offset.

## Model

| member | source | states |
|---|---|---|
| Text.ParseNatToString | subiquity/models/blockdev.py:242 | reading back the decimal rendering of a partition number gives the number |
| Text.NatToStringInjective | subiquity/models/blockdev.py:242 | distinct partition numbers render as distinct strings |
| Text.Basename | subiquity/models/blockdev.py:127 | the disk action's name is the longest '/'-free suffix of the device path |
| Text.ContainsInfix | subiquity/models/blockdev.py:258-259 | a text containing the device path matches the pattern `devpath.*` |
| OrderedMaps.Put | subiquity/models/blockdev.py:238 | `OrderedDict.update` keeps a present key in place with the new value and appends an absent one; other entries keep their positions and lookups; distinct keys stay distinct |
| Blockdevs.PartPathInjective | subiquity/models/blockdev.py:242 | the table keys `devpath + str(partnum)` of different partitions of one device differ |
| Blockdevs.SpaceOfAppend | subiquity/models/blockdev.py:178-181 | used space grows by offset + size when a partition is appended |
| Blockdevs.SpaceOfUpdate | subiquity/models/blockdev.py:178-181 | replacing a partition trades its offset + size for the new one's in used space |
| Blockdevs.MountedWhenListed | subiquity/models/blockdev.py:254-264 | a mount table in which the device path occurs marks the device as mounted |
| Blockdevs.AddPartition | subiquity/models/blockdev.py:205-252 | raises InsufficientSpace(requested, free) iff size > freespace; otherwise raises InvalidFlag iff a nonempty flag is outside boot/lvm/raid/bios_grub; in both cases the state is unchanged; an accepted call fails on the unbound path iff a mountpoint comes without an fstype, and succeeds otherwise |
| Blockdevs.AddPartitionRecordsPartition | subiquity/models/blockdev.py:233-238 | an accepted call records the partition action under partnum, in place if the number exists and at the end otherwise; every other partition is unchanged; lastpartnumber grows by one exactly for a new number; disk identity and base action are untouched |
| Blockdevs.AddPartitionOffset | subiquity/models/blockdev.py:218-221 | the recorded offset is 1 MiB when the disk had no partition and 0 otherwise |
| Blockdevs.AddPartitionSpace | subiquity/models/blockdev.py:186-194 | after an accepted call freespace drops by the new offset + size and rises by the extent of the partition it replaced |
| Blockdevs.AddFreshPartitionSpace | subiquity/models/blockdev.py:186-194 | an accepted call under a new partition number lowers freespace by exactly offset + size |
| Blockdevs.AddPartitionTables | subiquity/models/blockdev.py:240-250 | a format entry keyed by the partition path is written iff an fstype is given; a mount entry iff both a mountpoint and an fstype are given; nothing else in either table changes |
| Blockdevs.AddPartitionNormalisesSwap | subiquity/models/blockdev.py:215-216 | "swap" is recorded as "linux-swap(v1)", any other fstype verbatim, and "swap" itself is never recorded |
| Plans.GetActions | subiquity/models/blockdev.py:266-285 | a mounted device yields []; an unmounted one whose mounts all have format entries yields the disk action followed by partition, format and mount actions per partition in insertion order; the walk fails exactly when a mount entry comes before any format entry |
| Plans.StepsLength | subiquity/models/blockdev.py:273-283 | the first n partitions contribute n actions plus one per format entry hit plus one per mount entry hit |
| Plans.PlanLength | subiquity/models/blockdev.py:285 | the plan has 1 + #partitions + #format hits + #mount hits actions |
| Plans.StepsPrefix | subiquity/models/blockdev.py:273 | the actions of earlier-inserted partitions form a prefix of the actions of later ones |
| Plans.PlanOrder | subiquity/models/blockdev.py:271-285 | the disk action is first, and each partition's actions form one contiguous block after those of every partition inserted before it |
| Plans.FsIndexes | subiquity/models/blockdev.py:290-292 | selects exactly the positions of the partitions that have a filesystem entry, in increasing order |
| Plans.RowsAtAppend | subiquity/models/blockdev.py:292-296 | appending the row of the next partition that has a filesystem entry extends a table that matches those positions |
| Plans.GetFsTable | subiquity/models/blockdev.py:287-298 | one row per partition with a filesystem entry, in insertion order, holding the mountpoint (the fstype when there is none), the partition size, the fstype and the partition path |
| BlockdevInvariants.NewBlockdevWellFormed | subiquity/models/blockdev.py:121-129 | a new planner is well formed, and its free space is the explicit size, or the reported size when none is given |
| BlockdevInvariants.AddPartitionPreservesWellFormed | subiquity/models/blockdev.py:205-250 | every add_partition call with a non-negative size keeps distinct partition numbers, each format entry under the path of a recorded partition with the same number, mounts only under formatted paths, and used space at most size + 1 MiB |
| BlockdevInvariants.AddPartitionKeepsDisk | subiquity/models/blockdev.py:205-250 | add_partition never changes the disk's identity or size |
| BlockdevInvariants.ApplyAllKeepsDisk | subiquity/models/blockdev.py:205-250 | any sequence of add_partition calls keeps the disk's identity and size |
| BlockdevInvariants.StepPreservesWellFormed | subiquity/models/blockdev.py:205-250 | one queued request with a non-negative size keeps the planner well formed, whatever it raised |
| BlockdevInvariants.ApplyAllPreservesWellFormed | subiquity/models/blockdev.py:205-250 | any sequence of add_partition calls with non-negative sizes keeps the planner well formed |
| BlockdevInvariants.AddPartitionKeepsMountsFormatted | subiquity/models/blockdev.py:240-250 | an add_partition call of any size, whatever it raises, leaves every mount entry with a format entry under the same path |
| BlockdevInvariants.AddPartitionKeepsLinkable | subiquity/models/blockdev.py:233-246 | an add_partition call of any size keeps partition numbers distinct, every partition a partition of this disk, and every format entry under the path built from its own partition's number |
| BlockdevInvariants.ApplyAllKeepsMountsFormatted | subiquity/models/blockdev.py:240-250 | any sequence of add_partition calls, of any sizes, keeps every mount entry paired with a format entry |
| BlockdevInvariants.ApplyAllKeepsLinkable | subiquity/models/blockdev.py:233-246 | any sequence of add_partition calls, of any sizes, keeps the partition map and the format table linkable |
| BlockdevInvariants.PlannedDeviceBounds | subiquity/models/blockdev.py:211-221 | from a new device, any run of requests with non-negative sizes keeps used space within size + 1 MiB and every mount with a format entry |
| BlockdevInvariants.NegativeSizeBreaksBound | subiquity/models/blockdev.py:178-194 | on any empty disk, a −4 MiB partition followed by a replacement as large as the remaining free space is accepted twice and leaves used space at size + 3 MiB, beyond the size + 1 MiB bound |
| BlockdevInvariants.OffsetCanOverrunDisk | subiquity/models/blockdev.py:211-221 | on any disk with no partition, a partition of the disk's full size is accepted and leaves used space 1 MiB over the size, with the device no longer available |
| BlockdevInvariants.AppendLinked | subiquity/models/blockdev.py:273-285 | appending one partition's linked block, which opens with a partition of the disk, to a linked list keeps it linked |
| BlockdevInvariants.PartitionStepsLinked | subiquity/models/blockdev.py:274-283 | a partition's format action follows the partition and formats that partition number, and its mount action follows and mounts that format |
| BlockdevInvariants.StepsLinked | subiquity/models/blockdev.py:273-285 | in the plan of a linkable planner, every partition belongs to the disk action that heads it, every format comes right after a partition with the number it formats, and every mount right after the format it mounts |
| BlockdevInvariants.PlanLinksParents | subiquity/models/blockdev.py:266-285 | a linkable planner's plan begins with the disk action; each partition refers to it, each format follows a partition with the same number, each mount follows the format it refers to |
| BlockdevInvariants.PlannedDevicePlans | subiquity/models/blockdev.py:205-285 | from a new device, any run of requests of any sizes leaves every mount with a format entry and a plan that begins with the disk action and is linked as above |
| BlockdevInvariants.ResetRestoresPristine | subiquity/models/blockdev.py:131-137 | reset empties partitions, filesystems, mounts, bcache and lvm and keeps identity, size and the disk action; afterwards freespace == size, available iff size > 0, and the plan is the disk action alone; a well-formed planner resets to the freshly constructed one |
| DemoScenario.SdaPristine | subiquity/models/blockdev.py:314-315 | the example's /dev/sda planner starts with nothing queued on 128 GiB, and its disk action is named "sda" |
| DemoScenario.DemoFirstAdd | subiquity/models/blockdev.py:318-320 | on any empty 128 GiB disk, the 8 GiB bios_grub root partition is accepted; it leaves 128 GiB − 1 MiB − 8 GiB free, and the tables hold its ext4 format and its / mount |
| DemoScenario.DemoSecondAdd | subiquity/models/blockdev.py:321-322 | the 2 GiB /home partition is then accepted; it leaves 128 GiB − 1 MiB − 10 GiB free, the map holds root then home, and each table has one entry per partition |
| DemoScenario.DemoOversizedAdd | subiquity/models/blockdev.py:211-213 | a request one byte larger than the remaining free space fails with InsufficientSpace carrying the exact requested and free figures, and changes nothing |
| DemoScenario.TwoPartitionPlan | subiquity/models/blockdev.py:273-285 | a disk with two formatted, mounted partitions plans the disk action and then partition, format and mount for each |
| DemoScenario.DemoPlan | subiquity/models/blockdev.py:338 | the demo disk's plan is the disk action, then partition/format/mount for / and for /home |

## Left out

- `Bcachedev` (blockdev.py:35-61) cannot run (Python 2 `.next()`, adding an int to a string) and nothing uses it.
- `delete_partition` (blockdev.py:200-203) is an empty stub, so it has no behaviour to model.
- The `parttype` setter (blockdev.py:151-153) writes an attribute that nothing reads.
- The sysfs reads in `Disk._get_size` are file I/O. The size the device reports is a parameter instead.
- The `/proc/mounts` read in `is_mounted` is file I/O. Its text is a parameter instead.
- Blockdevs.IsMounted treats the device path as literal text. The source uses it as a regular expression, so a device path containing regex metacharacters is not modelled.
- Logging, YAML output and the `__main__` script are output glue. Only the scenario's numbers are reused.
- The `.get()` serialisation of actions is not modelled. The actions module is not part of this model, so actions stay abstract records.
- Plans.GetActions: its contract does not describe a state where a mount entry lacks its own format entry but an earlier partition has one. The body reuses that earlier format action as the source does, but no state reachable from a new device has this shape (`PlannedDevicePlans`).
- Partition numbers are natural numbers. The source would accept any value that `str()` can render.
- BlockdevInvariants.AddPartitionPreservesWellFormed: holds only for non-negative sizes. The source accepts any integer size, and a negative one can lower used space.
- BlockdevInvariants.PlannedDeviceBounds: the space bound is stated for non-negative sizes only, because a negative size breaks it (`NegativeSizeBreaksBound`). Its mount clause holds for every size (`PlannedDevicePlans`).
- BlockdevInvariants.PlanLinksParents: a format action is linked to a partition by number, not by identity. Re-adding a partition without an fstype keeps the older format entry, whose parent is the replaced partition action with its old offset and size; that action is never emitted.
- Offsets and sizes are integers. `usedspace` passes them through `int()`, so a fractional or string size would be truncated or parsed there; that conversion is not modelled.
- The `bcache` and `lvm` lists are emptied by `reset` but are never filled by the code modelled here.
