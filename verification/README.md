# Verification of the rum kernel

rum is a small i386 kernel. This project models its file system, its scheduler and console
sessions, and its memory management in Dafny, and proves what they promise.

**FAT16 volume.** `FatVolume` is the mounted volume: the cached table, the one-sector cache and the
device behind them, with a ghost trace of every sector write and every completed flush. A power
loss keeps everything flushed and, for each sector written since, either its old contents or any
value written to it, in any order. The live tree of a volume is a map from directory slots to files
and directories. Mounting checks that both tables agree; the first mutation audits the whole tree;
every later mutation keeps the audit true without repeating it. Each mutation writes new data to
free clusters, installs both tables, publishes one directory entry and only then releases what is
no longer used, with a flush between the phases, so that a power loss finds the old tree or the new
one. When a directory has to grow, one entry of a table in use changes as well, and the exact
condition under which both copies still show a good tree is proved. The history of all calls since
the mount extends this from one call to any sequence of them and to the next mount.

**Namespace.** Paths are parsed into at most sixteen 8.3 names, resolved against the device, and
held by tokens, objects and pins. Working directories stay truthful: every call, whoever makes it,
leaves every task's stored path leading to the directory that task retains.

**Tasks and console.** A circular scheduler with time slices, deadlines on a wrapping clock and
event counters; a registry of tasks and processes with parents, exit and reaping; console sessions
in which foreground processes pass the keyboard on and get it back.

**Memory.** The page frame allocator, address spaces with shared kernel tables and private user
tables, user copies, kernel stacks with guard pages, the heap, and the ELF loader. A ledger says
what every frame is used for; every operation moves frames between the free pool and the ledger
and loses none.

The modules follow the program: `Disk`, `Layout`, `Fat`, `Tree`, `View`, `Growth`, `Commit`,
`Crash`, `History` describe the volume and what a crash leaves, `Entries` and `Levels` how much and
how deep an audit looks; `FatName`, `FileData`, `Search`, `Mutations`, `Volume`, `Mount`, `Audit`,
`Extension`, `GrowthCrash`, `Budget`, `Operations`, `Enlarge` are the volume's operations and
`Sample` holds two concrete volumes; `Names`, `Pins`, `Backend`, `Calls`, `Lookup`, `Ledger`,
`Truth`, `Namespace`, `Path` are the namespace; `Timer`, `Scheduler`, `Session`, `Registry` the
tasks; `Frames`, `PageTables`, `PageSteps`, `PageRuns`, `Paging`, `UserPages`, `UserCopy`,
`SpaceLife`, `KernelStacks`, `PagingStart`, `Heap`, `ElfPlan`, `Arguments`, `ElfLoad` the memory.

`dafny verify dfyconfig.toml` checks the whole project.

## Model

| member | source | states |
|---|---|---|
| Layout.ParseBoot | kernel/fs/fat16.c:283-310 | An accepted boot sector gives a geometry whose regions fit the volume and the device and which leaves out no whole cluster; refusals are invalid, unsupported or out of range. |
| Layout.LbaInjective | kernel/fs/fat16.c:133-170 | Distinct table, root and data addresses of a valid geometry are distinct device sectors. |
| Layout.SlotIdOnto | kernel/fs/fat16.c:55-65 | Every identity the range test accepts names a directory slot of the volume. |
| Layout.SlotIdsAreInRange | kernel/fs/fat16.c:55-65 | Every directory slot has an identity the range test accepts, and it is not the root's. |
| Layout.SlotIdInjective | kernel/fs/fat16.c:55-65 | Two slots never share an identity. |
| Mount.MountVolume | kernel/fs/fat16.c:311-345 | Unless a read or an allocation fails, the answer is exactly the verdict on the device: online, 512-byte sectors, a good boot sector, two identical tables with the media byte and clean marks in their reserved entries; success gives a consistent volume over exactly the device's sectors, with an empty history. |
| Mount.ReadGeometry | kernel/fs/fat16.c:283-310 | The boot sector is read and judged in the order of the checks, each with its own error. |
| Mount.Compare | kernel/fs/fat16.c:324-328 | The sector-by-sector comparison accepts exactly two equal tables. |
| Mount.RegionsRead | kernel/fs/fat16.c:133-136 | A region address reads the numbered device sector it stands for. |
| Mount.RemountFinds | kernel/fs/fat16.c:311-345 | After a power loss at any event since the mount, a mount that accepts the device shows the outcome of all completed calls or a tree of the call that was interrupted. |
| Fat.ChainExactly | kernel/fs/fat16.c:36-51 | The bounded walk finds exactly the chains that are valid, acyclic, linked in order and terminated. |
| Fat.FollowChain | kernel/fs/fat16.c:36-51 | The loop returns the chain's length if there is a chain from that cluster and an I/O error if there is none. |
| Fat.Allocate | kernel/fs/fat16-write.c:221-232 | First-fit allocation succeeds exactly when enough clusters are free, and then links that many free clusters and changes no other entry. |
| Fat.FreeChain | kernel/fs/fat16-write.c:233-240 | Every cluster of the old chain becomes free, read from the cached table while the new one is edited. |
| FatName.NewEntryName | kernel/fs/fat16-write.c:241-252 | The name decoded from a freshly made entry is the name it was made for. |
| Names.LookupIsChild | kernel/fs/fat16.c:171-188 | On an audited volume, scanning a directory's slots finds exactly the child the live tree has under that name. |
| Names.RemovedUncovers | kernel/fs/fat16.c:171-188 | After a removal the name finds the next entry of that name in the directory, if there is one. |
| Lookup.LookUp | kernel/fs/fat16.c:171-188 | Every answer that is not a failure is the scan's: found with its kind, or missing. |
| Volume.FatVolume.constructor | kernel/fs/fat16.c:331-336 | A volume whose two tables agree starts consistent, unaudited and with nothing issued. |
| Volume.FatVolume.ReadSector | kernel/fs/fat16.c:20-27 | A read through the one-sector cache returns what the device holds. |
| Volume.FatVolume.WriteSector | kernel/fs/fat16-write.c:49-56 | The cache is dropped, the mutation counts as started, and a failed write may or may not have reached the medium. |
| Volume.FatVolume.Decode | kernel/fs/fat16.c:85-109 | An accepted entry describes a node whose whole chain was validated, and nothing well formed is refused. |
| Volume.FatVolume.ReadFile | kernel/fs/fat16.c:220-248 | The bytes returned are the requested slice of the file, cut at its size; after a failure they are a prefix of it. |
| Volume.FatVolume.FindTarget | kernel/fs/fat16-write.c:177-213 | The search ends at the named entry, or proves that no live entry has the name and returns the first reusable slot, the end mark or the need to grow; unless a read fails, each refusal has its reason: a name that cannot be read, a long name left before a free slot, or a full directory without the name that may not grow. |
| Volume.FatVolume.EntryWrite | kernel/fs/fat16-write.c:61-72 | One entry of its sector is replaced, its neighbours are not. |
| Volume.FatVolume.PersistCopy | kernel/fs/fat16-write.c:73-92 | One copy of the table gets exactly the sectors that differ, in order, and a flush exactly if there were any; whatever fails, a prefix of that was issued. |
| Volume.FatVolume.PersistTable | kernel/fs/fat16-write.c:73-92 | Both copies are brought up to date one behind the other's flush, and the cached table changes only if both succeed. |
| Commit.CrashInTableBatch | kernel/fs/fat16-write.c:73-92 | A power loss while one copy is written leaves each of its sectors wholly old or wholly new, and everything else as it was. |
| Volume.FatVolume.CopyContents | kernel/fs/fat16-write.c:303-333 | The new chain receives the old bytes that are kept, the patch and zero padding, sector by sector. |
| Volume.FatVolume.Publish | kernel/fs/fat16-write.c:284-302 | The slot behind a consumed end mark is made an end mark before the entry appears, each behind its own flush. |
| Volume.FatVolume.Finish | kernel/fs/fat16-write.c:32-41 | An error faults the mount exactly if a write had been tried. |
| Volume.FatVolume.Rewrite | kernel/fs/fat16-write.c:334-368 | Rewriting a file changes that node of the tree and no other, its contents are the patched old bytes, a power loss at any event shows the old file or the new one, after the entry's flush only the new one, and an error without a fault changed nothing. |
| Crash.CrashAtomic | kernel/fs/fat16-write.c:350-368 | For any mutation of an audited volume and any power loss during its writes, both copies of the table show exactly the old files or exactly the new ones. |
| Crash.CompletedAudited | kernel/fs/fat16-write.c:350-368 | A completed mutation that does not grow its directory leaves an audited volume, both tables equal to the cached one, and exactly the edited node changed. |
| Crash.CommittedDurable | kernel/fs/fat16-write.c:361-366 | Once the entry is flushed the new files survive any power loss, even if releasing the old chain fails. |
| Extension.InstalledHealthy | kernel/fs/fat16-write.c:273-283 | Hanging a zeroed cluster on a full directory leaves an audited volume in which only that directory's chain is longer. |
| GrowthCrash.CrashWhileGrowing | kernel/fs/fat16-write.c:273-283 | At every power loss while a directory grows, one copy of the table is whole and shows the tree before, with the longer directory, or after; both do if the two changed entries share a table sector. |
| GrowthCrash.GrowthAtomicExactly | kernel/fs/fat16-write.c:273-283 | Both copies show a good tree at every power loss if and only if the directory's last cluster and the new one have their table entries in the same sector. |
| GrowthCrash.TornCrash | kernel/fs/fat16-write.c:273-283 | If they do not, some power loss leaves a first copy that describes no tree at all and differs from the second, so that the next mount refuses it. |
| Sample.TornSample | kernel/fs/fat16-write.c:273-283 | A concrete volume on which a directory grows and a power loss leaves a first copy of the table that describes no tree. |
| History.CrashAnyTime | kernel/fs/fat16-write.c:369-487 | For any sequence of calls and any power loss, the volume, if its two tables agree, shows a tree of the one call in progress, which started from the durable outcome of all calls before it. |
| Audit.OwnChain | kernel/fs/fat16-write.c:96-106 | A chain is marked, and refused exactly if some cluster of it was already marked. |
| Audit.AuditDirectory | kernel/fs/fat16-write.c:113-161 | Unless a read fails, a directory is accepted exactly if it has well-formed entries all the way down within the depth, right dot entries, clusters nobody else owns and no more entries than the budget left. |
| Audit.AuditVolume | kernel/fs/fat16-write.c:162-176 | Unless a read fails, a volume is accepted exactly if it is a well-formed tree at most sixteen directories deep, with pairwise disjoint chains and no more entries to examine than the limit. |
| Levels.OneLevel | kernel/fs/fat16-write.c:113-161 | In an audited tree every node lies below the root at exactly one level. |
| Levels.ShallowIsAudited | kernel/fs/fat16-write.c:113-161 | A tree without directories below a depth passes the audit of that depth, with the same nodes. |
| Levels.AuditedIsShallow | kernel/fs/fat16-write.c:113-161 | An audit of a depth lets no directory through that lies deeper. |
| Budget.EntriesAfter | kernel/fs/fat16-write.c:113-161 | The entries the next audit will examine change by exactly the directory made or removed and the end mark moved. |
| Budget.EntriesGrown | kernel/fs/fat16-write.c:113-161 | A new node in a directory that grows for it costs two entries and what the node itself adds. |
| Namespace.MadeWithin | kernel/fs/fs.c:419-463 | A directory made by path leaves a tree that passes the audit of depth sixteen, because no path has more names. |
| Namespace.Tasks.NextMount | kernel/fs/fat16-write.c:162-176 | After any sequence of calls the next mount is writable exactly if the entries are within the limit, which is certain while five times the calls and the entries at the mount are. |
| Sample.PastTheLimit | kernel/fs/fat16-write.c:162-176 | The limit can be passed: a volume that is accepted with exactly the entries allowed, on which a directory is made, is refused by the next audit. |
| Backend.Writable | kernel/fs/fat16-write.c:162-176 | Unless a read fails, a mutation is let through exactly on a writable, unfaulted volume that passes the audit or has passed it since the mount. |
| Operations.ZeroCluster | kernel/fs/fat16-write.c:253-272 | A cluster is zeroed, with the two dot entries in its first sector for a new directory. |
| Operations.CheckEmpty | kernel/fs/fat16-write.c:468-477 | A directory accepted as empty has no live entry, and one refused has one. |
| Operations.Remove | kernel/fs/fat16-write.c:456-487 | The entry disappears from the tree and nothing else does, atomically under power loss; pinned, read-only, long-named and non-empty targets are refused. |
| Enlarge.LinkCluster | kernel/fs/fat16-write.c:273-283 | A free cluster is hung behind the directory's last one; it fails exactly when none is free. |
| Enlarge.CreateGrowing | kernel/fs/fat16-write.c:334-368 | Creating a file in a full directory adds the file and one cluster of the directory; at every power loss some copy of the table, and both if the two table entries that link the cluster share a sector, shows one of the three trees it passes through. |
| Enlarge.Mkdir | kernel/fs/fat16-write.c:424-455 | A new directory appears under an unused name with its dot entries, in a free slot atomically or in a new cluster of its parent, with the same promise for a power loss as any growing directory; an error without a fault changed nothing. |
| Calls.ReplaceFile | kernel/fs/fat16-write.c:369-382 | After a replace the name in that directory is a file with exactly the given bytes: the unpinned file that was there or a new one; every other node and name is kept, at most two entries are added, and the call is entered in the history with what a power loss during it leaves. |
| Calls.WriteFile | kernel/fs/fat16-write.c:392-411 | A write transfers all bytes or none, all exactly if it was published; the file is the old bytes overlaid with the data and everything else is unchanged. |
| Calls.TruncateFile | kernel/fs/fat16-write.c:412-423 | The file is cut or zero-extended to the size and everything else is unchanged. |
| Calls.WriteThenRead | kernel/fs/fat16-write.c:392-411 | What is read after a successful write is the requested slice of the old bytes overlaid with the data. |
| Calls.MkdirNode | kernel/fs/fat16-write.c:424-455 | Exactly one directory under one new name is gained and at most five entries, atomically under power loss unless its parent grew, and then with one whole copy of the table, or both if the two entries share a sector. |
| Calls.RemoveNode | kernel/fs/fat16-write.c:456-487 | Exactly one unpinned leaf and its name are lost, atomically under power loss. |
| Pins.PinTable.Pinned | kernel/fs/fat16-write.c:18-23 | A node is pinned exactly if its retention count is positive. |
| Pins.PinTable.Retain | kernel/fs/fat16.c:196-213 | One count grows by one and no other changes; it is refused exactly when that count is at its limit or a new one finds no free record. |
| Pins.PinTable.Release | kernel/fs/fat16.c:214-219 | One count falls by one if it was positive and no other changes. |
| Ledger.ReferenceTable.Acquire | kernel/fs/fs.c:154-183 | A new token names the node, every other token keeps its meaning, and each refusal has its reason; the backend always has room for the retention. |
| Ledger.ReferenceTable.Drop | kernel/fs/fs.c:185-201 | A token is closed exactly if it was live, and every other token keeps its meaning. |
| Ledger.ReferenceTable.Idle | kernel/fs/fs.c:230-247 | No object in use means no live token and no pinned node, so the volume can be detached; otherwise something is still pinned. |
| Ledger.ReferenceTable.OneMeaning | kernel/fs/fs.c:98-103 | A token names one node. |
| Path.CheckName | kernel/fs/path.c:16-34 | The names accepted are exactly the 8.3 names. |
| Path.Collect | kernel/fs/path.c:36-64 | The tokenizing loop returns exactly the components of the text, or the error of the first defect. |
| Path.Apply | kernel/fs/path.c:72-99 | The canonical text buffer with its back-links holds exactly the resolved stack of names, and the loop fails exactly when that stack does not exist. |
| Path.Parse | kernel/fs/path.c:101-123 | A path is accepted exactly if base and input denote a stack of names, and the canonical text is that stack rendered. |
| Path.ParseNormalForm | kernel/fs/path.c:101-123 | Every accepted path denotes at most sixteen upper-case 8.3 names whose text fits the buffer. |
| Path.ParseCanonical | kernel/fs/path.c:101-123 | Parsing canonical text gives the same names back, whatever the base. |
| Path.BaseCanonical | kernel/fs/path.c:101-123 | A base directory may be replaced by its canonical form without changing any result. |
| Path.DenotesParent | kernel/fs/path.c:72-123 | A path that ends in a name denotes what the components before it denote, and that name. |
| Namespace.StepTo | kernel/fs/fs.c:78-96 | One component moves the walk on the device exactly as it moves the stack of names. |
| Namespace.Tasks.Resolve | kernel/fs/fs.c:111-138 | Walking the first components as written ends at the node to which the names denoted by base and those components lead, and the walk to the working directory always finds the directory that is retained. |
| Namespace.Tasks.Open | kernel/fs/fs.c:249-260 | The handle names the node the canonical path leads to, a directory if the path ends in a slash or a dot name, and disturbs no working directory. |
| Namespace.Tasks.Close | kernel/fs/fs.c:278-283 | Closing succeeds exactly for a live handle and every other handle keeps its meaning; all working directories stay truthful exactly if the handle was none of theirs. |
| Namespace.Tasks.Mutate | kernel/fs/fs.c:419-463 | Replace, remove and mkdir by path act on the directory the path without its last name leads to and do there exactly what the backend promises; afterwards the whole path leads to the node made, or after a removal to the next entry of that name or to nothing; a path that ends in a slash overwrites nothing and removes only a directory; every working directory stays truthful. |
| Namespace.Tasks.Write | kernel/fs/fs.c:318-352 | Writing through a handle changes the file the handle names and nothing else. |
| Namespace.Tasks.Truncate | kernel/fs/fs.c:386-402 | Resizing through a handle changes the file the handle names and nothing else. |
| Namespace.Tasks.Initialize | kernel/fs/fs.c:472-479 | A fresh context is at the root. |
| Namespace.Tasks.Clone | kernel/fs/fs.c:481-505 | A child starts where its parent is, with a reference of its own. |
| Namespace.Tasks.Chdir | kernel/fs/fs.c:507-529 | The context moves to the canonical form of the input, or stays where it is. |
| Namespace.Tasks.Destroy | kernel/fs/fs.c:531-538 | The context's reference is given back. |
| Names.RawWalkIsWalk | kernel/fs/fs.c:111-138 | On an audited volume the walk over the device is the walk in the live tree. |
| Truth.SameNamesLead | kernel/fs/fs.c:419-463 | A path that led to a directory still does after a call that keeps all names. |
| Truth.GainedNameLeads | kernel/fs/fs.c:419-463 | A path that led to a directory still does after a name is gained. |
| Truth.LostNameLeads | kernel/fs/fs.c:419-463 | A path that led to a directory still does after another, empty, leaf is removed. |
| Timer.DurationTicks | hal/pc/pit.c:18-27 | A sleep is refused exactly beyond its maximum, is never shorter than asked for and never more than two ticks longer. |
| Timer.WakesOnTime | kernel/include/rum/timer.h:13-16 | On the wrapping clock a deadline is reached at its own tick and at none before. |
| Scheduler.Search | kernel/process/task.c:655-688 | The circular search picks the first ready slot after the current one, or idle if there is none. |
| Scheduler.Scheduler.Schedule | kernel/process/task.c:655-688 | Exactly the picked task runs, with a full slice, and only the two tasks involved change state. |
| Scheduler.Scheduler.Yield | kernel/process/task.c:710-721 | It succeeds exactly outside idle and protected sections, and then the search decides who runs. |
| Scheduler.Scheduler.Tick | kernel/process/task.c:901-911 | A timed waiter times out on the tick its deadline is due and on no other, work waiters wake, and a reschedule is asked for exactly when the slice is used up. |
| Scheduler.Scheduler.Signal | kernel/process/task.c:986-999 | The event's counter grows and every waiter on it, and nobody else, becomes runnable. |
| Scheduler.Scheduler.Wait | kernel/process/task.c:1001-1027 | Neither a cancellation nor a signal since the observed number is slept through, and each way of not sleeping has its reason. |
| Scheduler.Scheduler.Cancel | kernel/process/task.c:882-890 | A cancelled task is marked and, if blocked, woken at once, and nothing else changes. |
| Scheduler.SignalIsNoticed | kernel/process/task.c:986-999 | Fewer signals than the counter's range always change the number a waiter observed. |
| Scheduler.BoundedWaiting | kernel/process/task.c:655-688 | A slot that is ready at every dispatch is dispatched within as many dispatches as there are slots, whatever the other slots do. |
| Session.Sessions.CanLaunch | kernel/process/session.c:48-61 | The answer is exactly the right to launch: an idle console, or a live, uncancelled parent whose session is open and has room. |
| Session.Sessions.Attach | kernel/process/session.c:62-87 | A record joins exactly if it is unused and may launch; a foreground process takes the console and will return it to its parent. |
| Session.Sessions.MarkShell | kernel/process/session.c:88-94 | Exactly the root that owns the console can become its session's shell, once. |
| Session.Sessions.GrantCommand | kernel/process/session.c:107-118 | Exactly the child the shell put in front becomes its command. |
| Session.Sessions.CommandShell | kernel/process/session.c:119-125 | A command answers to the live shell it returns to, and to nobody otherwise. |
| Session.Sessions.Cancel | kernel/process/session.c:145-150 | A cancelled member is marked and nothing else changes. |
| Session.Sessions.MemberExit | kernel/process/session.c:151-188 | When a member ends, nothing points to it any more, the console goes to the nearest member on the way back that was not cancelled, and the session closes if it was its root. |
| Session.Sessions.Detach | kernel/process/session.c:189-204 | A record can be given back exactly if its member is no longer live, and is then blank. |
| Session.Sessions.RequestExit | kernel/process/session.c:205-211 | A command's request reaches its shell's session, and nobody else's request does. |
| Session.Sessions.OwnerReturns | kernel/process/session.c:39-47 | The way back from the owner has no cycle, fits the loop bound, passes live members of the session only and ends at its root. |
| Session.Sessions.RoomToLaunch | kernel/process/session.c:48-61 | With fewer members than slots, launching is refused only for want of authority. |
| Registry.Descendants | kernel/process/task.c:754-765 | The breadth-first search marks exactly the descendants, and its fixed queue suffices. |
| Registry.Registry.AvailableSlot | kernel/process/task.c:176-184 | A worker slot is found exactly if one is free. |
| Registry.Registry.BackgroundCapacity | kernel/process/task.c:188-194 | A process may launch behind itself exactly if two slots are free; the kernel always may. |
| Registry.Registry.CreateProcess | kernel/process/task.c:254-314 | A process is created exactly if its resources are granted, a task and a process number are left, the creator is not being cancelled, the console lets it launch and enough slots are free; joining the console then cannot fail. |
| Registry.Registry.Exit | kernel/process/task.c:723-792 | Exactly the descendants, and for a session's root the rest of its session, are cancelled and adopted; the task is marked as ended, the console goes to the nearest member on the way back that is not cancelled, or to nobody if the session ends with it, and no process is left with a parent that is gone. |
| Registry.Registry.Reap | kernel/process/task.c:584-603 | An ended task's slot is freed exactly unless its stack is refused; leaving the console cannot fail. |
| Registry.Registry.ReapExited | kernel/process/task.c:605-624 | Exactly the ended tasks are freed whose resources are not refused and whose parent is gone or, if all are asked for, is the caller; every other task is unchanged and the count is right. |
| Registry.Registry.CancelForeground | kernel/process/task.c:830-851 | Ctrl+C cancels exactly the process that owns the console, unless that is the shell. |
| Registry.Registry.RequestTermination | kernel/process/task.c:867-893 | The one process with that number is cancelled exactly if it may be: it is a child of the caller, or a child in the same session of the shell whose command the caller is, and neither the caller, a shell nor abandoned; each refusal has its reply. |
| Frames.Pmm.Initialize | kernel/mm/pmm.c:118-162 | It succeeds exactly if the map is usable and every boot structure can be reserved, a framebuffer above 4 GiB included; then exactly the whole pages of available memory that no reserved range, low memory, kernel or boot data touches are managed, whatever the order of the map. |
| Frames.Pmm.AllocatePage | kernel/mm/pmm.c:164-183 | The first free page from the cursor, going round once, is handed out; zero exactly when none is free. |
| Frames.Pmm.FreePage | kernel/mm/pmm.c:235-247 | Exactly pages that were handed out are taken back. |
| Frames.Pmm.AllocateContiguous | kernel/mm/pmm.c:190-209 | A run of adjacent free pages is marked whole; zero exactly when no such run exists. |
| Frames.Pmm.FreeContiguous | kernel/mm/pmm.c:211-228 | A run is taken back exactly if every page of it was handed out. |
| PagingStart.Initialize | arch/i386/paging.c:139-180 | Unless paging is already on, it starts with exactly the identity map of managed memory, kernel text read-only and the video range uncached, or takes no frame at all. |
| Paging.AddressSpaces.EnsureUserTable | arch/i386/paging.c:492-502 | A private table is there or is made from one zeroed frame; it fails exactly when none is free. |
| Paging.AddressSpaces.ReclaimTables | arch/i386/paging.c:504-521 | Exactly the private tables of the range that are empty go back to the allocator. |
| Paging.AddressSpaces.UserAllocate | arch/i386/paging.c:523-570 | Exactly when range, permissions, limits and frames allow, all pages are mapped zeroed and nothing else changes; otherwise tables, frames and counts are exactly as before. |
| PageRuns.UndoneIsRestored | arch/i386/paging.c:555-569 | Unmapping what was mapped and reclaiming the empty tables of the range restores the state before, because no table that was there before was empty. |
| UserPages.UserProtect | arch/i386/paging.c:572-590 | Only the write permission of exactly the given mapped pages changes. |
| UserPages.UserRelease | arch/i386/paging.c:592-613 | The given pages and every table they leave empty go back to the allocator and nothing else changes. |
| UserCopy.UserBytes | arch/i386/paging.c:623-638 | A range is accepted exactly if every byte of it is mapped for the user, and writable if asked. |
| UserCopy.CopyToUser | arch/i386/paging.c:678-687 | A copy changes exactly those bytes of that space, or nothing if any of them is not writable. |
| UserCopy.CopyFromUser | arch/i386/paging.c:667-676 | A copy returns exactly the bytes the program sees. |
| UserCopy.CopyRoundTrip | arch/i386/paging.c:649-687 | What is copied in is what is copied out, across any page crossings. |
| SpaceLife.CreateSpace | arch/i386/paging.c:236-261 | A new space shares the kernel's half and has no user page; it fails exactly for want of a slot, a record or a frame and then changes nothing. |
| SpaceLife.SwitchSpace | arch/i386/paging.c:317-327 | Exactly a registered space becomes the active one. |
| SpaceLife.CheckSpace | arch/i386/paging.c:273-296 | The consistency check before destruction always passes, with the recorded counts. |
| SpaceLife.DestroySpace | arch/i386/paging.c:263-315 | A space is destroyed exactly if it is neither the kernel's nor active, and exactly the frames recorded for it go back to the allocator. |
| KernelStacks.PublishKernelEntry | arch/i386/paging.c:101-105 | The entry is written into every registered directory and nowhere else. |
| KernelStacks.StackAllocate | arch/i386/paging.c:391-441 | A whole stack is mapped above its guard page in every space, or tables and frames are exactly as before. |
| KernelStacks.StackRelease | arch/i386/paging.c:443-470 | A stack is released exactly if it is mapped whole, its frames go back, and an empty stack table disappears from every space. |
| Heap.KernelHeap.Initialize | kernel/mm/heap.c:114-121 | The first page becomes one free block, once. |
| Heap.KernelHeap.Split | kernel/mm/heap.c:76-87 | The block is cut if the rest can hold a block, the rest joins a free successor, and no live byte changes. |
| Heap.KernelHeap.JoinNext | kernel/mm/heap.c:67-74 | The free successor is absorbed and no live byte changes. |
| Heap.KernelHeap.Grow | kernel/mm/heap.c:23-58 | All pages asked for are mapped at the end or none, exactly by the limit and the pages that can be had, and exactly those are used up. |
| Heap.KernelHeap.Kmalloc | kernel/mm/heap.c:123-129 | It succeeds exactly if a free block fits or the heap can grow enough, and then takes exactly the pages that were lacking; the payload is new, aligned and large enough, and every live payload keeps its bytes. |
| Heap.KernelHeap.Kcalloc | kernel/mm/heap.c:131-137 | As an allocation of the product, zeroed; an overflowing product is refused. |
| Heap.KernelHeap.Kfree | kernel/mm/heap.c:139-147 | It succeeds exactly on NULL and on a live payload, and every other payload keeps its bytes. |
| Heap.KernelHeap.Krealloc | kernel/mm/heap.c:149-173 | It succeeds exactly if the payload is live and fits where it is, with its free successor, or elsewhere; the bytes both sizes share are carried over, all other payloads keep theirs, pages are taken only for a move, shrinking never moves, and a refusal changes nothing. |
| Heap.LiveDisjoint | kernel/mm/heap.c:60-65 | Live payloads are aligned, inside the heap and disjoint with a header between them. |
| ElfPlan.PlanImage | kernel/process/elf.c:40-99 | An image is planned exactly if it is loadable, and the plan is its entry point and its load segments in order. |
| ElfPlan.PlanPromises | kernel/process/elf.c:40-99 | Planned segments are page-disjoint, inside the program window and, with the stack, within the page budget, and the entry point lies in executable file bytes. |
| Arguments.ArgumentsValid | kernel/process/elf.c:24-38 | A packet is accepted exactly if it packs a sequence of terminated strings one after the other, which it then determines. |
| ElfLoad.BuildStack | kernel/process/elf.c:101-119 | The stack of a valid packet is always built, with the vector at the aligned pointer and the strings at the top. |
| ElfLoad.LoadProcess | kernel/process/elf.c:121-155 | It succeeds exactly if packet, image, space slot, record and frames suffice; the new space then shows exactly the segments, zero fill, permissions and stack, and a failure leaves everything as it was. |
| ElfLoad.ArgumentReads | kernel/process/elf.c:101-119 | A program that decodes the count at its stack pointer and follows the pointers above it reads back every argument, whole and terminated. |

## Left out

- Crash.CompletedAudited: covers the mutations that do not grow a directory; the growing ones are stated by Extension.InstalledHealthy, Enlarge.CreateGrowing and Enlarge.Mkdir.
- Frames.Pmm.Initialize: takes the boot structures and the framebuffer as a list of ranges; how the multiboot tags and the memory map are parsed into them is not modelled.
- Registry.Registry.CreateProcess: takes the outcome of stack, space and directory allocation as one flag, and a shell flag only with the foreground one, as its callers pass it.
- Heap.KernelHeap.Grow: takes the number of pages that can be had as one number; that the frames and page tables behind them come one at a time from the page allocator is not modelled.
- Torn sectors: a sector is written wholly or not at all.
- Device errors other than an I/O error, such as timeout or device fault, are not told apart.
- Memory allocation inside the file system is a choice that may fail at any call; the busy flag, mount generations and unmounting beyond the idle test are not modelled.
- fs_read through a handle is modelled only as the read of its file at the volume; fs_stat, fs_readdir, fs_duplicate and fs_flush, that is, what a listing or a status shows and when a caller may flush, are not modelled.
- Kernel workers, task_create, naming of tasks, statistics and snapshots.
- paging_map_page, paging_unmap_page and paging_translate for kernel aliases, and paging_copy_string_from_user.
- The accessed and dirty bits, CR3, TLB invalidation, the context switch and everything in assembly.
- System calls, handles, process.c, the shell, the SDK, drivers, interrupts and port I/O; interrupt masking appears only in that each operation is one step.
