# Verified models of the Wine server, an IRP cancellation template and a division helper

The Wine server is single-threaded: each request runs to its end and then the next one does.
Every module here therefore models one part of it as a state that requests change, gives the
requests as functions of that state, and proves what holds after every run of them. Beside the
functions there is, where the source updates things in place, a class or a method with the
source's own loops, proved to compute the functions. The IRP template runs concurrently and is
a relation over the steps of any number of threads.

| module | what it models |
|---|---|
| `IrpCancel` | queueing, dequeuing and cancelling an IRP under one lock and one exchanged pointer |
| `DeviceIrp` | the life of a device IRP: file list, manager queue, current call, cancellation |
| `MapAddress` | the allocator of image addresses, two pools of free ranges |
| `UnlockHoles` | the interval subtraction that finds which bytes to unlock |
| `ObjectNames` | named objects, directories, printed and parsed paths, references |
| `CommittedRanges` | the committed ranges shared by the views of a mapping |
| `ConsoleQueue` | the two request queues of a console server |
| `HandleTable` | process handle tables, inheritance and handle counts |
| `FileLocks` | byte-range locks and the postponed closing of Unix descriptors |
| `Clipboard` | clipboard formats and where synthesized ones come from |
| `SharedObjects` | the allocator of objects in memory shared with clients |
| `Timers` | the two sorted timer lists and the pass over them |
| `DebugEvents` | debug events, from being linked to being continued |
| `AtomTable` | atoms, as an array threaded into hash chains |
| `Division` | the 32-bit division helper of the ARM preloader |
| `Options` | the option type the others share |

`dafny verify dfyconfig.toml` checks the whole project with Dafny 4.11.

Inputs that the source takes from elsewhere are parameters: whether an allocation or a system
call succeeds, the clock, hashing and case folding, what a driver reports, what a timer
callback does, whether an object vetoes closing a handle. Fields that a module's header calls
history are never read by a step.

## What turned out differently

Five things one would expect of the source do not hold in general. Each has a lemma with a case
and the exact condition under which it does hold.

- `UnlockHoles`: splitting a hole does not repair the back link of the hole behind it
  (src/wine/server/fd.c:1408-1410), and a later lock on that hole then edits the wrong node.
  The model keeps the stored back links. In `LostBytes` bytes that nobody locks stay locked; in
  `UnlocksTooMuch` bytes outside the area, and bytes that other locks hold, are unlocked.
  `CallIff` is the condition, on the locks and the area; `ExactIff` is the same for one lock.
  Without memory for the hole list nothing is unlocked at all (`NoBuffer`).
- `ObjectNames`: the children of a directory without a name print as paths from the root.
  `Orphan` is a case, `RoundTrip` the condition. A name with one trailing backslash also finds
  an object that has no lookup of its own; `LookupExact` says exactly which names find what.
- `MapAddress`: closing everything does not always restore the pools, since a range that needs
  a new entry is dropped when the list is full and realloc fails. `NotWhole` is a case,
  `AllClosed` the condition.
- `FileLocks`: closing a descriptor does not always give its Unix locks back. A single byte is
  skipped (src/wine/server/fd.c:1497, `OneByteLock`), and so is everything when the locks go
  from byte 0 to no end (src/wine/server/fd.c:1349, `FirstByteAndRest`). `GivesBackIff` is the
  condition, and `EmptyLockHelps` shows why it has to count empty locks.
- `ConsoleQueue`: blocking reads are not always served in order. `ReadsOvertake` is a case,
  `EndReadIff` the condition, `ReadsKeepOrder` what it gives for whole runs and `Overtakes`
  what happens without it.

## Model

| member | source | states |
|---|---|---|
| `IrpCancel.QueueStepKeepsInv` | media/reactos/doc/irp cancel boilerplate.c:32-66 | every step of a queueing thread keeps the invariant that exactly one party holds the right to complete each IRP |
| `IrpCancel.CancelStepKeepsInv` | media/reactos/doc/irp cancel boilerplate.c:10-29 | so does every step of a canceller: setting the flag, exchanging the routine, locking, unlinking, completing |
| `IrpCancel.DequeueStepKeepsInv` | media/reactos/doc/irp cancel boilerplate.c:69-103 | so does every step of a dequeuing thread, on both outcomes of the exchange |
| `IrpCancel.NewThreadKeepsInv` | media/reactos/doc/irp cancel boilerplate.c:10-103 | IRPs, cancellers and dequeuers may arrive at any time, in any number |
| `IrpCancel.ReachableInv` | media/reactos/doc/irp cancel boilerplate.c:10-103 | the invariant holds after every interleaving |
| `IrpCancel.InvMeansSafe` | media/reactos/doc/irp cancel boilerplate.c:10-103 | the invariant implies the promise for every IRP and every unlink |
| `IrpCancel.EveryRunIsSafe` | media/reactos/doc/irp cancel boilerplate.c:10-103 | under every interleaving an IRP is completed at most once, never while queued, exactly once when its threads have returned unless it is still queued with its routine armed, and the cancel routine unlinks an entry that is queued or self-linked |
| `IrpCancel.NoUseOnceCompleted` | media/reactos/doc/irp cancel boilerplate.c:10-103 | under every interleaving, no step of the queueing, dequeueing or cancel routine reads or writes an IRP that was completed, neighbours in a list edit included |
| `IrpCancel.ChangesAreUses` | media/reactos/doc/irp cancel boilerplate.c:10-103 | the steps counted as using an IRP include every step of the template that changes it |
| `IrpCancel.CompletedStays` | media/reactos/doc/irp cancel boilerplate.c:10-103 | after completion nothing about an IRP changes in any step, except the Cancel flag the kernel sets |
| `IrpCancel.ExchangeSettles` | media/reactos/doc/irp cancel boilerplate.c:14-103 | under every interleaving the thread that takes the cancel routine out of an IRP settles how it is completed: with success if it dequeues, as cancelled if it queues or cancels, never otherwise, and for certain once its threads are done |
| `IrpCancel.StepOnQueue` | media/reactos/doc/irp cancel boilerplate.c:21-73 | what each step does to the queue: one IRP goes to its end, the first is taken, or the cancelled one leaves, and the order of the others stays |
| `IrpCancel.FirstInFirstOut` | media/reactos/doc/irp cancel boilerplate.c:62-73 | under every interleaving no dequeuing thread takes an IRP while one that was queued when it was added still is |
| `IrpCancel.NoDeadlock` | media/reactos/doc/irp cancel boilerplate.c:10-103 | under every interleaving a thread that has not finished can go on, or the one with the lock can, unless that one dequeues from an empty queue |
| `DeviceIrp.SetResultKeepsInv` | src/wine/server/device.c:382-402 | setting a result leaves the IRP on no file's list and its async told once, drops the one reference of the queues if it was still there, and keeps every invariant |
| `DeviceIrp.CancelKeepsInv` | src/wine/server/device.c:685-702 | cancelling before, during or after dispatch keeps the accounting of CANCEL requests |
| `DeviceIrp.CancelAsyncKeepsInv` | src/wine/server/device.c:704-717 | cancelling an async cancels the IRP of the file that carries it and changes no other, and keeps every invariant |
| `DeviceIrp.OneIrp` | src/wine/server/device.c:704-717 | an async has at most one IRP, so stopping at the first is right |
| `DeviceIrp.SubmitKeepsInv` | src/wine/server/device.c:356-380 | a new IRP is on its file's list and on the manager's queue with the references for both |
| `DeviceIrp.ReportKeepsInv` | src/wine/server/device.c:961-1010 | the driver's report on the current call balances its references; a cancelled call left pending gets its one CANCEL request then |
| `DeviceIrp.DispatchKeepsInv` | src/wine/server/device.c:1012-1054 | handing out the next request keeps the references in balance: the queue's moves or one more is taken, and the handle's; which request it is, GetNextExact says |
| `DeviceIrp.GetNextExact` | src/wine/server/device.c:1014-1046 | of the requests left after the report the oldest is handed out if the reply has room for it, and exactly that one leaves the queue; otherwise nothing changes |
| `DeviceIrp.EveryRunInOrder` | src/wine/server/device.c:1012-1054 | over every run the queue is in order of creation, so a request that was handed out has no older one still queued, and a notification waits until it is handed out |
| `DeviceIrp.StepOnIrp` | src/wine/server/device.c:356-1054 | what each step does to every IRP there is: its file, cancel flag, the pointer the driver reported, whether it was left pending or handed out, and its handles |
| `DeviceIrp.EveryRunStep` | src/wine/server/device.c:356-1054 | the same for every step of every run |
| `DeviceIrp.StepOnQueue` | src/wine/server/device.c:356-1054 | an IRP leaves the queue exactly when it is handed out or its device is deleted |
| `DeviceIrp.StepOnAsync` | src/wine/server/device.c:382-402 | an async ends exactly with the result of its IRP or by itself, and is cancelled only by a cancellation of it that comes first |
| `DeviceIrp.NewCallExact` | src/wine/server/device.c:356-380 | a new call is on its file, queued, not cancelled and without a pointer; nothing changes without memory or a manager |
| `DeviceIrp.NewIrpsOnly` | src/wine/server/device.c:356-380 | an IRP is made only by a call, a cancellation or a free notification, one at a time and of that kind |
| `DeviceIrp.DeleteDeviceKeepsInv` | src/wine/server/device.c:754-786 | deleting a device ends every IRP of its files and takes it off the manager's queue, leaves the IRPs of other files as they were, and keeps every invariant |
| `DeviceIrp.AsyncEndsKeepsInv` | src/wine/server/async.c:166-213 | an async that ends by itself is told once |
| `DeviceIrp.ShutdownAssertion` | src/wine/server/device.c:801-837 | the assertion in device_manager_destroy: what is left on the queue has neither file nor async |
| `DeviceIrp.ShutdownReleasesAll` | src/wine/server/device.c:801-837 | after the manager is destroyed the only references to an IRP are driver handles |
| `DeviceIrp.EveryRun` | src/wine/server/device.c:356-427 | over every run references balance, an IRP created with a file is on that file's list until it has a result, its async is told exactly once, and the CANCEL requests are one for each cancelled IRP the driver left pending, with its pointer |
| `DeviceIrp.OneCancelRequest` | src/wine/server/device.c:685-702 | no IRP gets two CANCEL requests |
| `DeviceIrp.LeavesListOnlyWithResult` | src/wine/server/device.c:382-402 | a step takes an IRP off its file if and only if it gives it a result: a report that does not leave it pending, a result by handle, or the end of its device |
| `DeviceIrp.DeviceManager.SetIrpResult` | src/wine/server/device.c:382-402 | in place: the new state is the specified one |
| `DeviceIrp.DeviceManager.QueueIrp` | src/wine/server/device.c:612-622 | in place: file list, manager queue and references |
| `DeviceIrp.DeviceManager.CancelIrpCall` | src/wine/server/device.c:685-702 | in place: the flag, and a CANCEL request when there is a pointer to send |
| `DeviceIrp.DeviceManager.FileCancelAsync` | src/wine/server/device.c:704-717 | in place: the search of the file's list |
| `DeviceIrp.DeviceManager.GetNextDeviceRequest` | src/wine/server/device.c:961-1054 | in place: report on the current call, then hand out the oldest request that fits, which leaves the queue with the others kept; otherwise nothing |
| `DeviceIrp.DeviceManager.Destroy` | src/wine/server/device.c:801-837 | in place: release the current call, delete devices, free what is queued |
| `MapAddress.GapIff` | src/wine/server/mapping.c:266-269 | an image takes at least 64K more than its size exactly if its rounded size does not wrap in 64 bits |
| `MapAddress.CarveKeepsList` | src/wine/server/mapping.c:1272-1294 | carving keeps a free list strictly descending and non-adjacent |
| `MapAddress.GiveBackKeepsList` | src/wine/server/mapping.c:1297-1333 | so does giving back, in every merge case, entries of size zero included |
| `MapAddress.CarveCovers` | src/wine/server/mapping.c:1272-1294 | a byte is free afterwards if and only if it was free and is not in the carved range |
| `MapAddress.GiveBackCovers` | src/wine/server/mapping.c:1297-1333 | what is free afterwards is what was free plus the range, unless it needed an entry that could not be allocated |
| `MapAddress.GiveBackFits` | src/wine/server/mapping.c:1321-1333 | the list needs one more entry at most, and none when it merges |
| `MapAddress.AssignKeepsInv` | src/wine/server/mapping.c:1272-1294 | assigning keeps the partition of both pools; what it answers and records, AssignAnswer and AssignRecords say |
| `MapAddress.AssignAnswer` | src/wine/server/mapping.c:1272-1294 | the address of an image that has one; for another DLL the highest address at which a free range of the pool for its base can hold it at its upper end, and 0 exactly if none can; 0 for what is no DLL |
| `MapAddress.AssignRecords` | src/wine/server/mapping.c:1272-1294 | an address that is given is recorded with its descriptor, inside the pool for the image, and just its bytes stop being free there; the other pool and every other image stay as they are |
| `MapAddress.EveryRunPools` | src/wine/server/mapping.c:1275-1294 | over every run an image lies in the 32-bit or the 64-bit pool as its base asked for, and its address tells which |
| `MapAddress.ReleaseKeepsInv` | src/wine/server/fd.c:1589 | releasing with the descriptor keeps the partition and the bound on the list, and loses the range exactly when it touches no free range, the list is full and realloc fails |
| `MapAddress.ReleaseReturns` | src/wine/server/mapping.c:1297-1333 | the range goes back byte for byte to the pool it was taken from, which its address tells, unless it is lost; the other pool does not change |
| `MapAddress.EveryRunPartitions` | src/wine/server/mapping.c:1272-1333 | over every run each address of a pool is in exactly one free or held range and held ranges are disjoint |
| `MapAddress.EveryRunGaps` | src/wine/server/mapping.c:1272-1294 | over every run images start on a 64K boundary and are 64K apart |
| `MapAddress.AllClosed` | src/wine/server/mapping.c:1297-1333 | when every descriptor is closed each pool is one range again if and only if init_memory got its memory and no descriptor of the run was closed when its range touched no free range, the list was full and realloc failed |
| `MapAddress.NotWhole` | src/wine/server/mapping.c:1321-1326 | a run of 512 images in which every descriptor is closed and the 64-bit pool is not whole |
| `MapAddress.AddrRange.Assign` | src/wine/server/mapping.c:1272-1294 | in place: first fit, carved from the top of the range |
| `MapAddress.AddrRange.FreeMapAddr` | src/wine/server/mapping.c:1297-1333 | in place: the search loop, the merges, the growth of the array and the insertion |
| `MapAddress.Mappings.AssignMapAddress` | src/wine/server/mapping.c:1272-1294 | in place: the address there is, or the first fit in the list that the base selects |
| `MapAddress.Mappings.FdDestroy` | src/wine/server/mapping.c:1297-1333 | in place: the range goes to the list that its address selects |
| `MapAddress.Mappings.constructor` | src/wine/server/mapping.c:271-276 | init_memory: both lists hold their pool, if there was memory for the entry |
| `UnlockHoles.SweepLinks` | src/wine/server/fd.c:1384-1418 | one lock keeps the holes sorted, disjoint and non-empty, uses at most one more node, and leaves every back link right if and only if it does not split a hole that has a successor |
| `UnlockHoles.SweepCovers` | src/wine/server/fd.c:1384-1418 | on a well-linked list one lock takes out exactly its own bytes |
| `UnlockHoles.SubtractExact` | src/wine/server/fd.c:1377-1420 | all the locks together leave exactly the bytes none of them covers, as long as none splits a hole with a successor |
| `UnlockHoles.SubtractUses` | src/wine/server/fd.c:1352-1375 | count + 1 nodes are enough on every input, well linked or not |
| `UnlockHoles.ExactUnlocks` | src/wine/server/fd.c:1334-1429 | if no lock but the last lies inside a stretch, free of the locks before it, that has another free stretch behind it, the bytes unlocked are precisely those of [start, end) that no lock covers, in ascending non-empty pieces that do not touch; without memory for the holes nothing is unlocked, and that is exact only if nothing had to be |
| `UnlockHoles.NoBuffer` | src/wine/server/fd.c:1360-1369 | memory is needed exactly if some lock overlaps the area, and without it no call is made |
| `UnlockHoles.CallIff` | src/wine/server/fd.c:1334-1429 | for a whole call with memory for the holes, over the locks and the area: the bytes unlocked are exact after every lock and whatever lock comes next if and only if no lock lies inside such a stretch |
| `UnlockHoles.NeverIffNone` | src/wine/server/fd.c:1384-1418 | the sweeps split no hole with a successor if and only if that condition holds of the locks themselves |
| `UnlockHoles.ExactIff` | src/wine/server/fd.c:1406-1417 | the result is exact whatever lock comes next if and only if this lock does not split a hole with a successor |
| `UnlockHoles.SplittingInnerLosesBytes` | src/wine/server/fd.c:1406-1417 | on any good list such a lock can be followed by one that makes an uncovered byte disappear |
| `UnlockHoles.LostBytes` | src/wine/server/fd.c:1406-1417 | a concrete case: three locks after which bytes 6 to 9 stay locked by nobody |
| `UnlockHoles.CoveredLater` | src/wine/server/fd.c:1406-1417 | a concrete case: not exact with three locks, exact again with a fourth that covers the lost bytes |
| `UnlockHoles.UnlocksTooMuch` | src/wine/server/fd.c:1268-1274 | two concrete cases: bytes outside the area, and bytes another lock holds, are unlocked, in one case through a negative length |
| `UnlockHoles.RemoveUnixLocks` | src/wine/server/fd.c:1334-1429 | the loops of remove_unix_locks compute the specified pieces |
| `UnlockHoles.SubtractLock` | src/wine/server/fd.c:1384-1418 | the inner loop over the hole list computes the specified list |
| `ObjectNames.LookupExact` | src/wine/server/object.c:339-396 | exactly which names a case-sensitive lookup from the root resolves to an object with nothing left, the trailing backslash that an object without lookup swallows included |
| `ObjectNames.RoundTrip` | src/wine/server/object.c:273-300 | looking a printed path up gives the object back if and only if its topmost ancestor is the root |
| `ObjectNames.Orphan` | src/wine/server/object.c:273-300 | a child of an unnamed directory prints as a path from the root and is not found there |
| `ObjectNames.WalkSound` | src/wine/server/directory.c:193-232 | a walk only goes down, and what it passed plus what is left is the text it was given |
| `ObjectNames.CreateKeepsInv` | src/wine/server/object.c:432-481 | created names are non-empty, backslash-free and unique in their directory, and are found in their hash bucket; answer and effect are in CreateAnswer and CreateRecords |
| `ObjectNames.CreateAnswer` | src/wine/server/object.c:432-481 | an existing object exactly if the lookup ends at it with nothing left, it may be opened and the types agree; a new one exactly if there is memory and the name is empty or free in a directory; otherwise the error of the case it is |
| `ObjectNames.CreateRecords` | src/wine/server/object.c:407-481 | an existing object gets one reference more and nothing else changes; a new one is under the text left and the parent found, with one reference, or two if permanent, and its parent has one more; a refusal changes nothing |
| `ObjectNames.StepOnHeld` | src/wine/server/object.c:432-560 | what clients hold of an object changes in a step by just what the step hands out or takes back |
| `ObjectNames.EveryRunHeld` | src/wine/server/object.c:432-560 | over every run clients hold of an object the answers that returned it, two for a new permanent one, plus grabs less releases; its references are those and its children, and a freed object has none |
| `ObjectNames.UnlinkExact` | src/wine/server/object.c:525-534 | unlinking takes the name from the object and changes nothing else of it; no other name and nothing that clients hold changes |
| `ObjectNames.FindExact` | src/wine/server/object.c:563-587 | with or without regard to case, a directory finds a child of its own with that name, and finds one whenever there is one |
| `ObjectNames.RelativeRoundTrip` | src/wine/server/object.c:339-396 | the path of an object from any of its ancestors, looked up from there, gives the object back |
| `ObjectNames.DropKeepsInv` | src/wine/server/object.c:546-560 | releasing the last reference unlinks and frees, up the tree, and every count stays what clients and children account for |
| `ObjectNames.UnlinkKeepsInv` | src/wine/server/object.c:525-534 | unlinking gives up the parent's reference and the bucket entry |
| `ObjectNames.EveryRunRoundTrips` | src/wine/server/object.c:273-481 | over every run parents outlive their children, siblings differ in name, and the round trip holds exactly as above |
| `ObjectNames.PathsStay` | src/wine/server/object.c:525-560 | no step but unlinking changes the path of an object that is still there, and none frees what a client holds |
| `ObjectNames.GetPathElement` | src/wine/server/object.c:399-405 | the loop finds the end of the first path element |
| `ObjectNames.Namespace.FindObject` | src/wine/server/object.c:563-587 | the bucket scan finds the first match, with or without regard to case |
| `ObjectNames.Namespace.DirectoryLookupName` | src/wine/server/directory.c:193-232 | one component: the child it names, the end of the lookup, or the error |
| `ObjectNames.Namespace.LookupNamedObject` | src/wine/server/object.c:339-396 | the lookup loop computes the specified walk, errors included |
| `ObjectNames.Namespace.MeasurePath` | src/wine/server/object.c:280-285 | the first loop computes the length of the path |
| `ObjectNames.Namespace.GetFullName` | src/wine/server/object.c:273-300 | the buffer filled from its end holds the path; nothing exactly for an object without a name or when the buffer cannot be allocated |
| `ObjectNames.Namespace.CreateObject` | src/wine/server/object.c:407-429 | in place: the new object, its bucket and the parent's reference |
| `ObjectNames.Namespace.CreateNamedObject` | src/wine/server/object.c:432-481 | in place: lookup, then create, open or refuse, with the answer and the effect of CreateAnswer and CreateRecords |
| `ObjectNames.Namespace.ReleaseObject` | src/wine/server/object.c:546-560 | in place: the count, or the cascade to the parent |
| `ObjectNames.Namespace.UnlinkNamedObject` | src/wine/server/object.c:525-534 | in place: name, bucket and parent reference |
| `CommittedRanges.AddSeparates` | src/wine/server/mapping.c:528-583 | adding keeps the list sorted, non-empty and strictly separated |
| `CommittedRanges.AddCovers` | src/wine/server/mapping.c:528-583 | adding is union with the range, except that one touching no other is dropped when there is no room for an entry |
| `CommittedRanges.EveryRunIsUnion` | src/wine/server/mapping.c:528-583 | through any views the list covers nothing but what was asked for, and all of it when no allocation fails |
| `CommittedRanges.RunExact` | src/wine/server/mapping.c:528-583 | with failing allocations it covers exactly the additions that were not dropped |
| `CommittedRanges.DroppedRange` | src/wine/server/mapping.c:571-575 | a dropped range is not remembered, without an error |
| `CommittedRanges.FindCommittedRange` | src/wine/server/mapping.c:586-617 | true membership and the maximal run of bytes of the same status inside the view, a view without a list being all committed |
| `CommittedRanges.FindRange` | src/wine/server/mapping.c:602-616 | the search loop computes that from the list |
| `CommittedRanges.AddCommittedRange` | src/wine/server/mapping.c:528-583 | success exactly for a range the view allows; the list, if there is one, becomes the specified one |
| `CommittedRanges.Ranges.AddBytes` | src/wine/server/mapping.c:546-582 | on the array: search, merge or insertion |
| `CommittedRanges.Ranges.Merge` | src/wine/server/mapping.c:551-566 | on the array: extend an entry both ways and swallow the entries it runs into |
| `ConsoleQueue.EveryRun` | src/wine/server/console.c:1573-1698 | over every run an ioctl is in exactly one queue until it is finished once, after being handed out once; the one being served heads its queue; others are handed out in the order they were queued |
| `ConsoleQueue.ReadQueueIsEmpty` | src/wine/server/console.c:1675-1680 | the assertion before a blocking read is handed out never fails |
| `ConsoleQueue.DisconnectFinishesAll` | src/wine/server/console.c:597-610 | after a disconnect every ioctl was finished exactly once |
| `ConsoleQueue.EndReadIff` | src/wine/server/console.c:1573-1606 | finishing a read keeps the waiting reads in order if and only if no other read was moved aside or none was queued meanwhile |
| `ConsoleQueue.ReadsKeepOrder` | src/wine/server/console.c:1573-1698 | over every run whose reads are finished in such a state, blocking reads are handed out in the order they were queued |
| `ConsoleQueue.Overtakes` | src/wine/server/console.c:1604-1606 | from any other state, finishing the read leads to a later read being handed out first as the server goes on |
| `ConsoleQueue.ReadsOvertake` | src/wine/server/console.c:1604-1606 | a concrete case: a read is put back behind a later one, which is handed out first |
| `ConsoleQueue.SortKeepsInv` | src/wine/server/console.c:1640-1655 | moving all blocking reads aside keeps the invariant and leaves no blocking read in front of a waiting one |
| `ConsoleQueue.HandOutKeepsInv` | src/wine/server/console.c:1657-1689 | handing out the head keeps the order of the others |
| `ConsoleQueue.StepOnIoctl` | src/wine/server/console.c:1573-1698 | what a request does to every ioctl: a report finishes the outstanding one of its kind, the first that is ready is handed out if it fits, and nothing else happens to any |
| `ConsoleQueue.SubmitExact` | src/wine/server/console.c:577-595 | a new ioctl is the last of the queue, with the code asked for |
| `ConsoleQueue.SomethingIsHandedOut` | src/wine/server/console.c:1636-1689 | after any run a request that fits hands out an ioctl, unless all that wait are blocking reads behind an outstanding one |
| `ConsoleQueue.ConsoleServer.QueueHostIoctl` | src/wine/server/console.c:577-595 | in place: at the tail of the queue |
| `ConsoleQueue.ConsoleServer.GetNextConsoleRequest` | src/wine/server/console.c:1573-1698 | in place: finish, move reads aside, hand out; something is found exactly if the request fits and an ioctl is ready, and it is the first that is |
| `ConsoleQueue.ConsoleServer.MoveReads` | src/wine/server/console.c:1645-1655 | in place: the loop that moves every blocking read and keeps both orders |
| `ConsoleQueue.ConsoleServer.DisconnectConsoleServer` | src/wine/server/console.c:597-610 | in place: both queues are emptied, each ioctl finished |
| `HandleTable.LocalHandles` | src/wine/server/handle.c:73-98 | every index has its own handle, never 0 and never taken for a global one, whatever its low bits |
| `HandleTable.CloseKeepsTotal` | src/wine/server/handle.c:110-116 | closing keeps handle_count equal to the entries, and the count it takes from is not zero |
| `HandleTable.EveryRunCounts` | src/wine/server/handle.c:101-116 | over every run the handle_count of an object is the number of entries, in all tables, that point at it |
| `HandleTable.StepOnEntry` | src/wine/server/handle.c:236-445 | what each step does to every entry of every process: it appears at the lowest free place as asked, changes its flags, goes when its handle is closed or its process ends, and is the parent's in a child |
| `HandleTable.HandleStays` | src/wine/server/handle.c:236-445 | a handle stands for the same object until it is closed or its process ends, whatever else is done there or in other processes |
| `HandleTable.Table.AllocEntry` | src/wine/server/handle.c:236-253 | the lowest free index, or failure only when a reallocation fails or all MAX_HANDLE_ENTRIES are used; no other entry changes |
| `HandleTable.Table.Grow` | src/wine/server/handle.c:219-233 | growing changes no entry of the map, and fails only when a reallocation fails or all MAX_HANDLE_ENTRIES are used |
| `HandleTable.Table.GetHandle` | src/wine/server/handle.c:320-338 | the entry of the map, if there is one |
| `HandleTable.Table.Shrink` | src/wine/server/handle.c:341-359 | shrinking changes no entry of the map |
| `HandleTable.Table.CloseHandle` | src/wine/server/handle.c:427-445 | success exactly for a known, unprotected handle the object gives up; then just that entry is gone |
| `HandleTable.Table.InheritHandle` | src/wine/server/handle.c:361-375 | one listed handle, if inheritable and not there yet |
| `HandleTable.CopyHandleTable` | src/wine/server/handle.c:379-424 | nothing exactly if the table cannot be allocated; else a table with exactly the parent's inheritable entries, or the listed ones of them, at the same handles, and their counts grow by that |
| `FileLocks.OverlapsMeaning` | src/wine/server/fd.c:1326-1331 | for areas that are not empty, overlapping means having a byte in common, end 0 being infinity |
| `FileLocks.LockFdKeepsInv` | src/wine/server/fd.c:1502-1543 | a granted lock is compatible with every live lock of the inode; when it is granted and what is recorded, LockAnswer and LockRecords say |
| `FileLocks.LockAnswer` | src/wine/server/fd.c:1502-1543 | the answer is a conflict with lock l exactly if l is the oldest live lock that forbids the new one, granted or refused by the system exactly if none does, and a bad parameter exactly if the area wraps or there is no such descriptor |
| `FileLocks.LockRecords` | src/wine/server/fd.c:1502-1543 | granted exactly if asked properly, nothing forbids it and the system agrees; then there is one lock more, live and just as asked, and every other is as it was; any other answer changes nothing |
| `FileLocks.StepOnLock` | src/wine/server/fd.c:1458-1561 | what each step does to every lock there is: it stops being live exactly if it is the oldest of its descriptor with the bounds unlocked, its process exits, or its descriptor is closed |
| `FileLocks.NewLocksOnly` | src/wine/server/fd.c:1502-1543 | locks are made by granted requests only |
| `FileLocks.RemoveLockKeepsInv` | src/wine/server/fd.c:1458-1470 | removing a lock keeps the three lists in agreement and closes what waited for the last lock of the inode |
| `FileLocks.EveryRunLocks` | src/wine/server/fd.c:1502-1543 | over every run overlapping locks on one inode are both shared, or of one descriptor and not both exclusive; overlapping is symmetric |
| `FileLocks.EveryRunLists` | src/wine/server/fd.c:1432-1470 | over every run the lists of a lock's descriptor, inode and process hold it exactly while it is live, oldest first |
| `FileLocks.EveryRunCloses` | src/wine/server/fd.c:1101-1229 | over every run a Unix descriptor is closed at most once, never while its inode has locks, and has been closed once it is out of use and the inode has no locks or is gone; a delete without POSIX semantics never unlinks an open file |
| `FileLocks.DestroyAssertions` | src/wine/server/fd.c:1135-1156 | the assertions in inode_destroy hold |
| `FileLocks.CloseFdKeepsInv` | src/wine/server/fd.c:1581-1606 | destroying a descriptor keeps all of it |
| `FileLocks.ClosePendingKeepsFiles` | src/wine/server/fd.c:1101-1125 | closing what is pending closes each entry once and keeps the deletions |
| `FileLocks.EveryRunDeletes` | src/wine/server/fd.c:1101-1229 | over every run a name was to be deleted by a closed descriptor of the inode if and only if it has been unlinked or is still remembered, and nothing is remembered of an inode that is gone |
| `FileLocks.StepOnFd` | src/wine/server/fd.c:1581-1606 | what each step does to every descriptor: its inode and name stay, it closes only when closed, and its disposition is what it was last told |
| `FileLocks.OpenExact` | src/wine/server/fd.c:1998-2050 | a new descriptor is open, on the inode and with the name asked for, and the inode knows it |
| `FileLocks.PosixAtOnce` | src/wine/server/fd.c:1207-1215 | a POSIX deletion of a file without locks is unlinked as the descriptor closes |
| `FileLocks.GivesBackIff` | src/wine/server/fd.c:1485-1498 | a byte that a lock of the closed descriptor held is in what is given back if and only if some lock of it, empty ones included, starts below or ends beyond that byte, and its locks do not go from byte 0 to no end |
| `FileLocks.OneByteLock` | src/wine/server/fd.c:1497 | a one-byte lock on its own is not given back |
| `FileLocks.FirstByteAndRest` | src/wine/server/fd.c:1349 | with a lock on byte 0 and one from byte 5 to no end, nothing is given back |
| `FileLocks.EmptyLockHelps` | src/wine/server/fd.c:1485-1498 | with an empty lock further on, the one-byte lock is given back |
| `FileLocks.RemoveLockUnlocks` | src/wine/server/fd.c:1458-1470 | where the hole list is exact, removing a lock unlocks precisely its own bytes that no live lock of the inode holds, or nothing if a lock is in the way and there is no memory for the holes |
| `FileLocks.CloseUnlocks` | src/wine/server/fd.c:1485-1498 | where the hole list is exact, closing a descriptor unlocks a byte it held if and only if no live lock of the inode holds it, the condition of GivesBackIff is met, and there is memory for the holes if they are needed |
| `FileLocks.EveryRunUnlocks` | src/wine/server/fd.c:1485-1498 | the same for every descriptor after every run |
| `FileLocks.Files.InodeClosePending` | src/wine/server/fd.c:1101-1125 | in place: the loop over the closed list |
| `FileLocks.SearchConflict` | src/wine/server/fd.c:1520-1533 | the loop finds the oldest lock of the inode that forbids the new one, if there is one |
| `FileLocks.SearchExact` | src/wine/server/fd.c:1551-1559 | the loop finds the oldest lock of the descriptor with the same bounds |
| `FileLocks.Files.AddFileLock` | src/wine/server/fd.c:1447-1449 | in place: the tail of the three lists |
| `FileLocks.Files.LockFile` | src/wine/server/fd.c:1502-1543 | in place: wrap check, conflict search, addition to the three lists; granted and recorded as LockRecords says |
| `FileLocks.Files.UnlockFile` | src/wine/server/fd.c:1546-1561 | in place: the first lock with the same bounds, success exactly if there is one |
| `FileLocks.Files.RemoveFdLocks` | src/wine/server/fd.c:1485-1498 | in place: every lock of the descriptor goes, and the area it computes |
| `FileLocks.Files.RemoveFileLock` | src/wine/server/fd.c:1458-1470 | in place: the three lists, then the pending closes |
| `FileLocks.HasPendingClose` | src/wine/server/fd.c:1191-1198 | the loop over the closed list finds the name exactly if it is there |
| `FileLocks.Files.InodeAddClosedFd` | src/wine/server/fd.c:1201-1229 | in place: kept for later while there are locks, unlinked at once, remembered once for its name, or just closed |
| `FileLocks.Files.InodeDestroy` | src/wine/server/fd.c:1135-1156 | in place: the last reference closes and unlinks what is left |
| `FileLocks.Files.FdDestroy` | src/wine/server/fd.c:1581-1606 | in place: the locks, the closed list, the inode |
| `Clipboard.EveryRun` | src/wine/server/clipboard.c:111-139 | in every reachable state format ids are unique, count and bitmap agree with the list, and the source of a synthesized format is earlier in it |
| `Clipboard.ReleaseExact` | src/wine/server/clipboard.c:296-321 | a format survives the owner exactly if following `from` leads to data |
| `Clipboard.EveryReleaseGrounds` | src/wine/server/clipboard.c:296-321 | after any run and a release every remaining format reaches one holding data, and none that did is lost |
| `Clipboard.CloseKeepsInv` | src/wine/server/clipboard.c:190-231 | synthesizing formats keeps the invariant, whichever allocations fail |
| `Clipboard.SetDataKeepsInv` | src/wine/server/clipboard.c:402-438 | setting data keeps it, for new and for existing formats |
| `Clipboard.SetExact` | src/wine/server/clipboard.c:402-438 | the format set is the one asked for, in its old place or at the end, and no other changes; nothing changes for format 0 or without memory |
| `Clipboard.CloseExact` | src/wine/server/clipboard.c:190-293 | an unchanged clipboard closes as it is; a changed one keeps its formats in front, then the locale if a text was there, then exactly the missing formats one of whose group was there and for which there is memory, each from its preferred source that was there |
| `Clipboard.EveryRunSourced` | src/wine/server/clipboard.c:190-231 | in every reachable state a synthesized format comes from another format of its own group, which is there |
| `Clipboard.ReleaseOrder` | src/wine/server/clipboard.c:296-321 | a release keeps the order of the formats that stay and each of them whole, and counts as a change exactly if one goes |
| `Clipboard.SeqnoTells` | src/wine/server/clipboard.c:190-438 | over any run outside rendering the sequence number never goes down, and the same number means the same formats |
| `Clipboard.Survivors` | src/wine/server/clipboard.c:303-316 | the release loop computes the specified list and bitmap |
| `Clipboard.ClipboardObject.SetClipboardData` | src/wine/server/clipboard.c:402-438 | in place: replace or append |
| `Clipboard.ClipboardObject.SynthesizeFormats` | src/wine/server/clipboard.c:190-231 | in place: the locale, then the table of sources by the formats that were there |
| `Clipboard.ClipboardObject.CloseClipboard` | src/wine/server/clipboard.c:286-293 | in place: synthesize only what changed since the clipboard was opened |
| `Clipboard.ClipboardObject.ReleaseClipboard` | src/wine/server/clipboard.c:296-321 | in place: list, count, bitmap and sequence number |
| `SharedObjects.GrowsEnough` | src/wine/server/mapping.c:1374-1405 | the assertion in grow_session_mapping, and the new block holds what was needed |
| `SharedObjects.AllocKeepsInv` | src/wine/server/mapping.c:1407-1457 | reuse, bump allocation and growth keep blocks tiling and objects apart |
| `SharedObjects.AllocFits` | src/wine/server/mapping.c:1430-1457 | an allocation that succeeds is large enough and has a new id; it fails only when the mapping cannot grow |
| `SharedObjects.AllocAnswer` | src/wine/server/mapping.c:1407-1457 | the answer is the first free object that fits; else a new one of that size in the first block with room, or in a new block exactly if there is none and the mapping can grow; else nothing, and nothing changes |
| `SharedObjects.StepOnObject` | src/wine/server/mapping.c:1430-1484 | what each step does to every object: a freed one loses its id, a reused or invalidated one gets the next id, each of these moves its sequence number on by two, and no other changes |
| `SharedObjects.FreeListExact` | src/wine/server/mapping.c:1417-1472 | an object is on the free list exactly from when it is freed until it is reused, and joins it at the end |
| `SharedObjects.SeqnoShows` | src/wine/server/mapping.c:1459-1484 | over any run the sequence number of an object never goes down, and the same number means the same id and the same use |
| `SharedObjects.EveryRunObject` | src/wine/server/mapping.c:1350-1484 | over every run blocks tile the mapping, and each object lies in the used part of its block, clear of the session header, with an even sequence number and an id exactly while it is not free |
| `SharedObjects.EveryRun` | src/wine/server/mapping.c:1350-1484 | over every run two objects are apart, and their ids differ while both are in use |
| `SharedObjects.LocatorsStay` | src/wine/server/mapping.c:1486-1491 | a locator taken for an object never names another object or another use of its place, however the run goes on |
| `SharedObjects.Session.AllocSharedObject` | src/wine/server/mapping.c:1430-1457 | in place: free list, block, growth and id |
| `SharedObjects.Session.FindFreeSessionObject` | src/wine/server/mapping.c:1417-1428 | the first free object of the exact or a sufficient size |
| `SharedObjects.Session.FindFreeSessionBlock` | src/wine/server/mapping.c:1407-1415 | the first block with room to spare |
| `SharedObjects.Session.WriteId` | src/wine/server/file.h:203-216 | a write section: odd while the id changes, even again afterwards |
| `SharedObjects.Session.FreeSharedObject` | src/wine/server/mapping.c:1459-1472 | in place: id 0 and the tail of the free list |
| `SharedObjects.Session.InvalidateSharedObject` | src/wine/server/mapping.c:1475-1484 | in place: a new id |
| `Timers.EveryRun` | src/wine/server/fd.c:421-458 | over every run both lists are sorted and a timer is in exactly one place: waiting, called once, or removed |
| `Timers.TakenExact` | src/wine/server/fd.c:896-920 | a pass takes exactly the timers that have expired |
| `Timers.FireCalls` | src/wine/server/fd.c:922-930 | callbacks that remove none: the taken timers are called, each once and in order |
| `Timers.FireCallsOnly` | src/wine/server/fd.c:922-930 | whatever the callbacks do, nothing else is called |
| `Timers.WaitExact` | src/wine/server/fd.c:932-950 | the wait is the time to the earliest deadline, or the shared-data period if sooner, and -1 exactly when there is nothing to wait for |
| `Timers.MillisExact` | src/wine/server/fd.c:949-962 | milliseconds are rounded up and capped at INT_MAX |
| `Timers.EveryPass` | src/wine/server/fd.c:888-962 | a pass after any run calls the expired timers, in order and no others, and the wait it returns is exact for the timers that are left |
| `Timers.AddExact` | src/wine/server/fd.c:421-451 | a positive timeout waits for that system time, any other for that long from now on the monotonic clock, and no other timer changes |
| `Timers.CancelExact` | src/wine/server/fd.c:453-458 | just that timer leaves the list it waits in |
| `Timers.PassSettles` | src/wine/server/fd.c:888-930 | after any run every timer that has expired is called by the pass, or removed by a callback of the pass before its turn; one that has not expired is not called |
| `Timers.TimerLists.AddTimeoutUser` | src/wine/server/fd.c:421-451 | in place: before the first timer that is not earlier |
| `Timers.TimerLists.ComputeWait` | src/wine/server/fd.c:932-961 | the wait for the timers that are left, in milliseconds |
| `Timers.TimerLists.GetNextTimeout` | src/wine/server/fd.c:888-962 | in place: take, call, and compute the wait |
| `DebugEvents.EveryRunBusy` | src/wine/server/debugger.c:386-435 | over every run a queued event is never continued and is with the debugger exactly when its process is busy with it, so a process has at most one; the assertions in continue and detach follow |
| `DebugEvents.EveryRunCurrent` | src/wine/server/debugger.c:582-606 | over every run what a process is busy with is a queued event that was sent |
| `DebugEvents.EveryRunInOrder` | src/wine/server/debugger.c:286-298 | over every run an event that was never delayed is delivered after all earlier deliveries of its process, in link order |
| `DebugEvents.SentIsBusy` | src/wine/server/debugger.c:405-425 | the assertion in continue_debug_event |
| `DebugEvents.OlderAreGone` | src/wine/server/debugger.c:286-298 | when an event is chosen, older ones of its process that were never delayed have left the queue |
| `DebugEvents.ContinueKeepsInv` | src/wine/server/debugger.c:386-435 | continuing, replaying and delaying keep the invariant; what each reply does, ContinueExact says |
| `DebugEvents.ContinueExact` | src/wine/server/debugger.c:386-435 | what a reply does to every event: the sent one of the thread is continued and unlinked, or queued again for later; all of a suspended thread are delayed; every other event is as it was |
| `DebugEvents.ContinueFrees` | src/wine/server/debugger.c:386-435 | after a reply to a sent event its process is busy with none |
| `DebugEvents.WaitExact` | src/wine/server/debugger.c:582-606 | exactly the oldest event of the debug object that can be sent is sent, and its process is busy with it; otherwise nothing changes |
| `DebugEvents.LinkExact` | src/wine/server/debugger.c:250-262 | an event of a debugged process is linked last, queued, with its debug object; of any other process nothing |
| `DebugEvents.StepOnProcess` | src/wine/server/debugger.c:500-557 | a process gets a debug object only by being attached without one, and loses it only by being detached or with the object |
| `DebugEvents.StepOnThread` | src/wine/server/debugger.c:482-497 | a thread's suspend count goes up and down with suspending and resuming, within its bounds, and with nothing else |
| `DebugEvents.DetachKeepsInv` | src/wine/server/debugger.c:532-557 | detaching unlinks and continues every event of the process, changes no other event, and keeps the invariant |
| `DebugEvents.DestroyKeepsInv` | src/wine/server/debugger.c:340-354 | destroying a debug object, killing its processes or not, leaves none of its events linked and no process attached to it |
| `DebugEvents.ResumeKeepsInv` | src/wine/server/debugger.c:482-497 | a thread that starts running again has its delayed events queued, and no other event changes |
| `DebugEvents.Debugger.FindEventToSend` | src/wine/server/debugger.c:286-298 | the first event that can be sent |
| `DebugEvents.Debugger.WaitDebugEvent` | src/wine/server/debugger.c:582-606 | in place: the event is sent and its process busy with it |
| `DebugEvents.Debugger.ContinueDebugEvent` | src/wine/server/debugger.c:386-435 | in place, for all three kinds of reply: success exactly if the thread is of a process of this debugger and, unless the reply is to be given later, an event of it was sent; every event is as ContinueExact says |
| `DebugEvents.Debugger.DebuggerDetach` | src/wine/server/debugger.c:532-557 | in place: the loop over the queue |
| `AtomTable.GetIntAtomValue` | src/wine/server/atom.c:250-264 | the value of # and decimal digits below MAXINTATOM, and 0 for any other name |
| `AtomTable.FindExact` | src/wine/server/atom.c:267-277 | looking a name up finds the entry with that name up to case, if and only if there is one |
| `AtomTable.InsertKeepsInv` | src/wine/server/atom.c:302-324 | a new entry keeps array and doubly linked chains in agreement and names unique |
| `AtomTable.UnlinkKeepsInv` | src/wine/server/atom.c:328-340 | so does unlinking one, wherever it is in its chain |
| `AtomTable.StepOnName` | src/wine/server/atom.c:280-386 | what any step does to a name that has an atom: the same atom, references up or down by one, or gone with the last |
| `AtomTable.StepOnNewName` | src/wine/server/atom.c:280-386 | a name without an atom gets the lowest free one from a successful addition, and from nothing else |
| `AtomTable.EveryRunFinds` | src/wine/server/atom.c:280-386 | over every run finding a name gives the same atom until its references are all released, and their count is additions plus grabs minus releases |
| `AtomTable.EveryRun` | src/wine/server/atom.c:200-219 | over every run chains and array hold the same entries, each name once, and string atoms are above every integer atom |
| `AtomTable.AddAnswer` | src/wine/server/atom.c:280-325 | the error of each kind of bad name; the number of an integer atom; the atom that a name has, or the one it gets and is found under from then on; no memory exactly if there is none or every atom is used |
| `AtomTable.TextStays` | src/wine/server/atom.c:302-324 | a new atom has the very text that was added, and no step changes the text of an atom |
| `AtomTable.Table.FindAtomEntry` | src/wine/server/atom.c:267-277 | following the links of a chain finds the entry |
| `AtomTable.Table.AddAtom` | src/wine/server/atom.c:280-325 | in place: checks, integer atoms, an existing or a new entry |
| `AtomTable.Table.DeleteAtom` | src/wine/server/atom.c:328-340 | in place: one reference less, or both neighbours relinked |
| `AtomTable.Table.FindAtom` | src/wine/server/atom.c:343-368 | the atom of the map, with the error for each kind of bad name |
| `AtomTable.Table.GrabAtom` | src/wine/server/atom.c:371-380 | in place: one reference more, 0 for an unknown atom |
| `Division.UnsignedDivMod` | src/wine/loader/preloader.c:633-652 | for every 32-bit dividend and divisor the exact quotient in the low and remainder in the high half; no result exactly for a zero divisor |
| `Division.Align` | src/wine/loader/preloader.c:639-642 | the first loop shifts divisor and bit together without losing a bit, and ends |
| `Division.Divide` | src/wine/loader/preloader.c:643-650 | the second loop leaves quotient and remainder, and ends |
| `Division.Round` | src/wine/loader/preloader.c:643-650 | one round at bit k leaves what the round at bit k - 1 needs |
| `Division.OrIsSum` | src/wine/loader/preloader.c:645 | setting a quotient bit adds it |
| `Division.HighOr` | src/wine/loader/preloader.c:651 | packing the halves adds them |

## Left out

- System calls, threads being woken, APC delivery, security checks and the registry: close and
  unlink are recorded events, the others do not appear.
- Symbolic links in lookups, and object types with a lookup of their own, such as devices.
- Global handles, and the sequence-lock writers in class.c.
- Suspend counts of debugged processes: repeated DBG_REPLY_LATER replies resume a process more
  than once, and nothing is claimed about the balance.
- Reconnecting a console server: one connection is modelled, since `busy` is not cleared when
  it ends.
- Dismounting a volume, which closes descriptors early.
- Directories whose hash table could not be allocated after the object was created.
- Counters that would wrap only after 2^32 or 2^64 operations: clipboard and object ids,
  sequence numbers, reference counts; times and sizes are unbounded where the source has 64 bits,
  except in `MapAddress.Need`, `FileLocks.LockFd` and `FileLocks.Span`.
- `IrpCancel`: a dequeuing thread waits for a non-empty queue, which the template takes for
  granted, and an IRP is queued once in its life.
- `DeviceIrp`: parameters and result data of a call, the kernel object tree, and the reference
  counts of files and devices.
- `UnlockHoles.CallIff`: is about every lock that may come next; for one fixed list of locks only
  the sufficient condition of `ExactUnlocks` is stated, since a list that has gone wrong can
  still give the right bytes once later locks cover the lost ones (`CoveredLater`).
- `UnlockHoles`: a lock whose start and end are equal is skipped as the source skips it, although
  the overlap test takes end 0 for infinity.
- `ObjectNames`: the references a lookup takes and gives back on its way are not modelled, and an
  object is freed before its parent is released, where the source frees it just after.
- `HandleTable`: access rights other than the inherit and protect flags.
- `Timers`: the clock does not move during a pass.
- PE and ELF parsing, auxiliary vectors, security descriptors, hooks, change notification and
  option parsing: mostly field copying.
