# scsiswap in Dafny

scsiswap is a Linux patch that keeps disks with bad sectors usable: the SCSI disk driver hides one
gigabyte at the end of a disk, and failing blocks are remapped into it. This project models the
parts of the patched kernel that carry the hard promises, and proves those promises.

- `RequestProtocol`, `RequestQueueCode`: allocation, freeing, bypass and teardown of block requests,
  as a protocol of steps at lock boundaries and as the code that keeps the counters.
- `BioItems`, `BioRequest`: merging bios and completing requests in parts.
- `MakeRequest`, `PlugList`: the worklist that replaces recursion, and the per-task plug.
- `SdCapacity`, `SdCapacityCode`, `SdCdb`, `SdPrep`, `SdIssue`, `SdDone`, `SdNames`: the disk driver's
  capacity discovery, command building, error accounting and naming, and a request's way through both layers.
- `CommandReserve`, `CommandReserveCode`: the emergency SCSI command of a host.
- `Crc32Table`, `Crc32`, `Ring`, `SwapLog`: the checksum and the persistent event log.
- `SwapView`, `SwapEngine`, `SwapCore`: the remapping engine: what its entries mean, the engine as functions of
  its state and of the answers of the device, and its code.
- `SwapTurns`, `SwapLoops`, `SwapReads`, `SwapRuns`, `SwapCounts`, `SwapFaults`: what one block, one call and
  any sequence of calls promise, and the runs in which data is lost.
- `Common`: optional values and unsigned words.

Two styles recur. A protocol is a datatype of states, a datatype of events, `Enabled` and `Apply`, an
invariant, and lemmas over every run. Code that changes things in place is a class or a method, proved
against those functions. What the surrounding kernel decides (elevators, memory allocation, the device,
the swap hook) is a parameter or a nondeterministic choice, so every statement holds for all of it.

Where the code and its own text differ, the code is followed:

- The comment on `blk_queue_bypass_start` says that no request has ELVPRIV set on return. A nested call
  returns while the outermost one still drains (`NestedBypassStartReturnsEarly`); it can only do so while
  a drain is going on (`NestedBypassStart`).
- A sleeping allocator is not always left with somebody who will wake it: `StrandsExactly` gives the
  exact steps after which nobody is left (a refusal by the elevator, or a failed allocation, on an idle
  queue), `SleepersHaveWakers` shows that nothing else does it, and `RefusedFirstStrands` gives a
  run of one step for every queue.
- The reservation is lost, and 10-byte commands may be kept on a disk too large for them, after a scan
  that gives up because a block length of 2^31 or more comes out negative
  (`GarbledLengthLosesReservation`, `GarbledLengthOverflows`); `PublishesUsableIff` and
  `AddressableStep` give the exact conditions.
- A FUA write to a drive without `use_10_for_rw` may be cut short after its first commands;
  `FuaFinishes` says exactly when, with and without the last-sector workaround, and `FuaCutShort` is such
  a write.
- A request that runs past the end of `sector_t` passes the end-of-disk check of the driver: `InsideIff` says
  exactly which requests stay inside the disk, `CarriedIff` exactly which commands reach the device as they
  were meant, and `WrappedRequest` is one that does not. `bio_check_eod` stops such bios while the size of the
  device is known (`EodStops`).
- A request of no sectors may go out as 256 blocks or as one block; `EmptyRequest` says which when, and
  `EmptyBecomes256` is one.
- `swap_recreate`, failing after it has allocated a block for a listed entry, clears the bit of the block
  the entry now points to. `ListedOwners` says exactly from which bitmap and device answers ownership is
  lost (`LosesOwnership`); `ShareBlock` and `OwnershipLost` go on to two entries on one block.
- A write whose new entry fails its first write but can be moved, and then fails for good, leaves the first
  block marked as used with no entry to it (`WriteLeaves`).
- A write that gives a block an entry, or moves one, may change the sectors around those written:
  `WriteKeepsIff` and `ReadKeepsIff` say exactly when everything else stays, and `NeighbourLost` is a write of
  one sector that changes the next one. The engine returns -DATA_MAY_DIRTY for it, but
  drivers/scsi/swap/swap.c reports it to the bio as success; the flag it would have set is commented out.
- The loops of the engine keep block addresses in 32 bits while sectors have 64: a request goes to the
  blocks it means if and only if it ends by sector 2^32 (`AddressesIff`, `WritesRightIff`, `ReadsRightIff`).
  `WrapsToBlockZero` is a write to sector 2^32 that ends up in the entry of block 0.
- A log head with a good checksum may hold counters no ring can have; `AllPeeksInside` says exactly for
  which counters every item lies inside the ring, `LoadsOutsideTheRing` is a head that loads without, and
  `Push` writes inside the ring exactly if next lies in it.
- `swap_repair_successive_sectors` never repairs, and `flush_swap_info_table` never fails; the branches
  for their other outcomes are not modelled.

Values that come from headers outside the repository: `SD_LAST_BUGGY_SECTORS` is 8, `BLK_MAX_REQUEST_COUNT`
is 16, opcodes are those of T10 SBC-3, errno values are those of Linux; the SCSI majors are left open.
`sector_t` is 64 bits wide. Integers are unbounded except where the text of a contract writes the
wrap-around out.

The modules from `SwapView` to `SwapFaults` model drivers/scsi/swap/core.c. That file is kept in GB18030, so
the rows below point to the design document and the header that say what its functions are for; the
comment on each member names the function it models. Signed arithmetic there is taken to wrap around;
a request is shorter than 2^22 sectors, since its size in bytes comes as an int.

## Model

| member | source | states |
|---|---|---|
| RequestProtocol.Thresholds | block/blk-core.c:101-114 | the congestion thresholds satisfy 1 <= off <= on <= nr_requests |
| RequestProtocol.ThresholdsAre | block/blk-core.c:101-114 | the thresholds lie an eighth, and an eighth and a sixteenth, below nr_requests, to the unit |
| RequestProtocol.InitialInv | block/blk-core.c:665-672 | a fresh queue, with its one bypass section open, satisfies the invariant |
| RequestProtocol.GetFollows | block/blk-core.c:920-1040 | an allocation attempt keeps the cap, the hysteresis flags, and an answer for every sleeper of its direction |
| RequestProtocol.RetryFollows | block/blk-core.c:1113-1135 | so does a retry after a wakeup, real or spurious |
| RequestProtocol.FreedLane | block/blk-core.c:831-869 | losing a slot leaves every sleeper with a counted request, the starved mark or a woken process |
| RequestProtocol.AllocFailFollows | block/blk-core.c:1059-1081 | undoing a slot after a failed allocation keeps the same |
| RequestProtocol.GetGrants | block/blk-core.c:920-1003 | on a live queue a process gets a slot if and only if the elevator does not refuse, fewer than 3/2 nr_requests are counted, and fewer than nr_requests are or it must get one or is batching; who sleeps, and what becomes starved or congested |
| RequestProtocol.RetryGrants | block/blk-core.c:1113-1135 | the same for a retry, by a process that has left the wait queue |
| RequestProtocol.FreeWakes | block/blk-core.c:831-869 | a free wakes one sleeper if and only if fewer than nr_requests are left, and ends congestion below the off threshold |
| RequestProtocol.AllocFailWakes | block/blk-core.c:1059-1081 | so does a failed allocation, which leaves an empty list starved and its process asleep if it may wait |
| RequestProtocol.OtherDirection | block/blk-core.c:855-869 | the opposite direction has one sleeper woken exactly when a slot is lost while it is starved |
| RequestProtocol.AllocationKeepsSlot | block/blk-core.c:1005-1057 | allocating the request keeps its slot, with or without elevator data |
| RequestProtocol.DrainWakesAll | block/blk-core.c:464-475 | the end of a drain wakes every sleeper of both directions |
| RequestProtocol.ActionFollows | block/blk-core.c:920-1136 | every step of one direction keeps what its lane promises, and none adds ELVPRIV requests under bypass or any request to a dying queue |
| RequestProtocol.LanesFollow | block/blk-core.c:855-869 | promises of the two directions combine to the invariant of the queue |
| RequestProtocol.LifecycleKeepsInv | block/blk-core.c:407-578 | request_fn runs, bypass, dying and draining keep the invariant |
| RequestProtocol.StepKeepsInv | block/blk-core.c:325-1136 | every step of the protocol keeps the invariant |
| RequestProtocol.RunKeepsInv | block/blk-core.c:325-1136 | every run keeps the invariant |
| RequestProtocol.ReachableStates | block/blk-core.c:831-1136 | in every reachable state of every queue: no lost wakeup, the cap of 3*nr/2, congestion exactly within its hysteresis, bypass depth equal to its holders, no ELVPRIV request once bypass has drained, a dead queue quiet |
| RequestProtocol.LimitsAreConstant | block/blk-core.c:101-114 | no step changes the limits |
| RequestProtocol.DeadStaysQuiet | block/blk-core.c:325-340 | once DEAD is set, nothing is counted or running ever again and no request_fn call begins |
| RequestProtocol.DyingForGood | block/blk-core.c:531-560 | a queue marked dying stays so and never counts a request more |
| RequestProtocol.MarksQueue | block/blk-core.c:531-578 | dying and dead are set by the steps that are meant to |
| RequestProtocol.BypassStaysClean | block/blk-core.c:488-521 | after the drain no request carries ELVPRIV until the bypass depth is back at zero |
| RequestProtocol.NestedBypassStartReturnsEarly | block/blk-core.c:478-505 | a run in which a nested bypass_start returns while an ELVPRIV request is live |
| RequestProtocol.NestedBypassStart | block/blk-core.c:488-505 | that can only happen while a drain is going on; a pending drain alone does not make it happen |
| RequestProtocol.StrandsExactly | block/blk-core.c:1059-1136 | a step leaves a sleeper with nobody to wake it if and only if it puts a process to sleep on an idle queue |
| RequestProtocol.SleepersHaveWakers | block/blk-core.c:831-1136 | runs without such a sleep always leave somebody to wake every sleeper |
| RequestProtocol.RefusedFirstStrands | block/blk-core.c:1097-1136 | on every queue, a first allocation that the elevator refuses sleeps with nobody to wake it |
| RequestQueueCode.TryGet | block/blk-core.c:920-1003 | the counters and flags after the first part of __get_request are the exact image of the lane; on a live queue a slot is given exactly when the elevator does not refuse, fewer than 3/2 nr_requests are counted, and fewer than nr_requests are or it must get one or is batching |
| RequestQueueCode.GetRequest | block/blk-core.c:1097-1136 | the same through the decision to sleep: a slot under that condition, and else a sleep exactly if it may wait |
| RequestQueueCode.RetryRequest | block/blk-core.c:1113-1135 | the same for a retry after io_schedule, which sleeps again whenever it gets no slot |
| RequestQueueCode.FreedOne | block/blk-core.c:831-849 | congestion is cleared below the off threshold, full below nr_requests, and one sleeper is woken then |
| RequestQueueCode.FreeOwn | block/blk-core.c:855-869 | freeing gives the image of the lane after the free, and nr_rqs_elvpriv drops with the flag |
| RequestQueueCode.AllocFailOwn | block/blk-core.c:1059-1081 | the failure path gives the image of the lane, starved mark and sleep included |
| RequestQueueCode.FreedOther | block/blk-core.c:867-869 | a starved opposite direction is noticed exactly |
| RequestQueueCode.InImage | block/blk-core.c:831-1081 | storing both directions and the change of nr_rqs_elvpriv gives the image of the whole next state |
| RequestQueueCode.CongestionThreshold | block/blk-core.c:101-114 | the in-place computation gives the thresholds |
| RequestQueueCode.RequestQueue.constructor | block/blk-core.c:640-690 | a new queue is the initial state |
| RequestQueueCode.RequestQueue.Commit | block/blk-core.c:938-1003 | one critical section is one step of the protocol, counters exact before and after |
| RequestQueueCode.RequestQueue.Get | block/blk-core.c:1097-1136 | get_request takes the Get step; a slot is given exactly on a live queue when the elevator does not refuse, fewer than 3/2 nr_requests are counted, and fewer than nr_requests are or it must get one or is batching |
| RequestQueueCode.RequestQueue.Retry | block/blk-core.c:1113-1135 | the retry takes the Retry step, and gives a slot under the same condition |
| RequestQueueCode.RequestQueue.Free | block/blk-core.c:1287-1314 | __blk_put_request takes the Free step |
| RequestQueueCode.RequestQueue.AllocFail | block/blk-core.c:1059-1081 | the failure label takes the AllocFail step |
| RequestQueueCode.RequestQueue.ElvprivFail | block/blk-core.c:1041-1057 | the other failure label takes the ElvprivFail step |
| RequestQueueCode.RequestQueue.RunBegin | block/blk-core.c:325-340 | request_fn is called exactly when the queue is not dead |
| RequestQueueCode.RequestQueue.RunEnd | block/blk-core.c:325-340 | request_fn_active goes back down |
| RequestQueueCode.RequestQueue.BypassStart | block/blk-core.c:488-505 | the depth grows by one, and a drain follows exactly for the outermost call |
| RequestQueueCode.RequestQueue.BypassEnd | block/blk-core.c:514-521 | the depth drops by one, and the flag is cleared exactly when it reaches zero |
| RequestQueueCode.RequestQueue.CleanupStart | block/blk-core.c:531-560 | the queue is dying and in bypass, one level deeper |
| RequestQueueCode.RequestQueue.DrainPass | block/blk-core.c:407-476 | a drain ends exactly when no elevator request is out and request_fn is not active, and for a cleanup no request is counted and nothing else busy; it wakes every sleeper if the queue has a request_fn |
| BioItems.DropDropsBytes | block/blk-core.c:2286-2436 | completing n bytes removes exactly the first min(n, all) bytes of the request's byte stream |
| BioItems.DropKeepsNonEmpty | block/blk-core.c:2335-2408 | no empty bio is left over, and nothing is left exactly when n covers everything |
| BioItems.CompletionsCompose | block/blk-core.c:2286-2436 | completing n1 then n2 bytes leaves what n1 + n2 leaves, whatever the errors |
| BioItems.AlignedCompletionsCompose | block/blk-core.c:2286-2436 | on sector boundaries with one error, also every field and every report agree |
| BioItems.EveryBioEndsOnce | block/blk-core.c:157-197 | over any completions that cover a request, each bio is ended once, in chain order, with an error exactly when it was not up to date or a failing completion touched one of its bytes; the error is that of the completion that finishes it, else -EIO, and the swap hook is asked about just that |
| BioItems.DropKeepsContiguous | block/blk-core.c:2377-2415 | whole-sector completions keep the chain contiguous from the new __sector |
| BioItems.AppendKeepsContiguous | block/blk-core.c:1360-1380 | an adjacent back merge keeps it contiguous |
| BioItems.PrependKeepsContiguous | block/blk-core.c:1382-1410 | an adjacent front merge keeps it contiguous and adds the bytes in front |
| BioItems.OpKeepsSound | block/blk-core.c:1360-1410 | each merge or completion keeps __sector at the first bio, bios end to end, and __data_len the sum |
| BioItems.LifeKeepsSound | block/blk-core.c:2286-2436 | so does any sequence of them, over the whole life of a request |
| BioRequest.ReqBioEndio | block/blk-core.c:157-197 | size, sector and the uptodate bit after n bytes, and the report when nothing is left |
| BioRequest.Skip | block/blk-core.c:2355-2371 | past k segments exactly their bytes are gone |
| BioRequest.Walk | block/blk-core.c:2346-2353 | the walk runs out of segments only when the bio's bytes are gone |
| BioRequest.TrimmedBio | block/blk-core.c:2403-2408 | moving bi_idx, bv_offset and bv_len drops exactly the bytes done |
| BioRequest.HeadDone | block/blk-core.c:2339-2344 | finishing a whole bio leaves the same work and the same reports to come |
| BioRequest.HeadTrimmed | block/blk-core.c:2403-2408 | the fix-up after the loop is the trimmed item |
| BioRequest.Consume | block/blk-core.c:2335-2385 | the loop ends where the bytes run out, without the branch for too many segments |
| BioRequest.CompleteBytes | block/blk-core.c:2335-2408 | chain, reports and byte count are exactly those of dropping n bytes |
| BioRequest.Request.FromBio | block/blk-core.c:1465-1477 | a request made from a bio carries that bio |
| BioRequest.Request.BackMerge | block/blk-core.c:1360-1380 | the bio joins at the end, tail and length follow |
| BioRequest.Request.FrontMerge | block/blk-core.c:1382-1410 | the bio joins in front, sector and length follow |
| BioRequest.Request.Update | block/blk-core.c:2286-2436 | blk_update_request leaves the byte stream minus its first min(n, all) bytes and a length of what is left, moves the sector of file system requests only, returns false exactly when nothing is left, keeps the sums, and never reaches its two error branches |
| MakeRequest.NextIsSmaller | block/blk-core.c:1844-1864 | serving a bio makes the pending forest smaller, so the loop ends |
| MakeRequest.Task.GenericMakeRequest | block/blk-core.c:1808-1865 | the outermost call hands over the accepted bios in worklist order and leaves bio_list empty; a nested one only appends |
| MakeRequest.Task.MakeRequestFn | block/blk-core.c:1850-1862 | a driver's submissions are gathered, and never two drivers run at once |
| MakeRequest.WorkIsBreadthFirst | block/blk-core.c:1830-1864 | the worklist order is breadth first, for every finite forest |
| MakeRequest.WorkMeetsTheSameBios | block/blk-core.c:1815-1830 | it hands over the same bios, each as often, as plain recursion |
| PlugList.ListSortSorts | block/blk-core.c:2934-2941 | sorting by plug_rq_cmp is a sorted permutation |
| PlugList.SortedMeans | block/blk-core.c:2934-2941 | requests stand queue by queue, and within a queue in ascending position |
| PlugList.SortedIsGrouped | block/blk-core.c:3030-3058 | sorted lists, and lists of one queue, have each queue's requests together |
| PlugList.Unplug | block/blk-core.c:2949-2960 | unplugging runs the queue with the right depth and drops its lock |
| PlugList.FlushOne | block/blk-core.c:3035-3063 | one pass handles one request under its own queue's lock |
| PlugList.FlushList | block/blk-core.c:3030-3074 | one lock at a time, each distinct queue locked and unplugged once, every request handled once |
| PlugList.Plug.Add | block/blk-core.c:1557-1581 | an unsorted plug holds one queue only, sorting is asked for exactly when queues mix, and a full plug is flushed first |
| PlugList.Plug.Flush | block/blk-core.c:3004-3074 | a flush empties the plug and handles exactly its requests, if queues mix by queue and ascending position |
| SdCapacity.ReadRest | drivers/scsi/sd.c:1925-2087 | reading changes nothing but the capacity and the media flag |
| SdCapacity.PublishesUsableIff | drivers/scsi/sd.c:2227-2236 | a completed scan publishes raw minus reserved, if raw is larger, exactly when it is the first or does not find the raw size already in place; else raw |
| SdCapacity.GivingUpLeaves | drivers/scsi/sd.c:2112-2142 | the capacity an early return leaves behind, from the answers alone |
| SdCapacity.GivingUp | drivers/scsi/sd.c:2112-2142 | it is zero or unchanged unless a block length was garbled |
| SdCapacity.FaithfulStep | drivers/scsi/sd.c:2665-2724 | a scan or failed scan keeps the published size zero or usable; a completed one publishes raw minus reserved, or raw if that is no larger than the reservation |
| SdCapacity.SteadyRun | drivers/scsi/sd.c:2665-2724 | so does any sequence of them |
| SdCapacity.ReservationStays | drivers/scsi/sd.c:2105-2241 | every completed scan after any sequence publishes the same size, raw minus reserved if raw is larger |
| SdCapacity.GarbledLengthLosesReservation | drivers/scsi/sd.c:2123-2127 | a block length of 2^31 followed by a good scan publishes the raw size |
| SdCapacity.AddressableStep | drivers/scsi/sd.c:2215-2236 | use_16_for_rw stays right over every event but a scan giving up, and over that exactly when what it leaves has 32-bit addresses |
| SdCapacity.StaysAddressable | drivers/scsi/sd.c:2215-2236 | over any sequence without garbled lengths, 10-byte commands are in use only where they suffice |
| SdCapacity.GarbledLengthOverflows | drivers/scsi/sd.c:2112-2121 | a garbled length can leave a larger disk with 10-byte commands |
| SdCapacity.StaysFormatted | drivers/scsi/sd.c:2163-2225 | capacities stay whole device blocks of a supported size |
| SdCapacity.HonestDevice | drivers/scsi/sd.c:2105-2241 | whichever command goes first, a device is read as what it says, less one block if it is known to say one too many, or suspected and odd |
| SdCapacity.HonestBytes | drivers/scsi/sd.c:2105-2241 | in bytes: a first scan publishes all the device says but the reservation |
| SdCapacity.RescaleBytes | drivers/scsi/sd.c:2219-2226 | 512-byte sectors hold as many bytes as the device blocks did |
| SdCapacity.AdjustIs | drivers/scsi/sd.c:2144-2160 | one block is taken off exactly for a device known to say one too many, or suspected and odd |
| SdCapacity.LargeWithout16 | drivers/scsi/sd.c:2129-2142 | a device too large for READ CAPACITY(10) that lacks (16) is taken for 2^32 blocks |
| SdCapacity.StrangeLength | drivers/scsi/sd.c:2162-2186 | a length of 0 is taken for 512, one that is not supported leaves a disk of nothing |
| SdCapacity.AnswerTakesMedium | drivers/scsi/sd.c:1892-1916 | a missing medium or a unit not ready takes the medium of removable disks away, and only of those |
| SdCapacity.MediumGone | drivers/scsi/sd.c:1300-1309 | a removable disk without medium has no size, any other is untouched |
| SdCapacityCode.Ask | drivers/scsi/sd.c:1940-1974 | three tries and one more for each of the first nine resets, so at most twelve commands; every one but the last is retried, and the last decides, with the meaning of its sense spelled out |
| SdCapacityCode.ScsiDisk.constructor | drivers/scsi/sd.c:2823-2832 | the defaults before the first scan |
| SdCapacityCode.ScsiDisk.SetMediaNotPresent | drivers/scsi/sd.c:1300-1309 | only removable disks lose medium and capacity |
| SdCapacityCode.ScsiDisk.ReadCapacityError | drivers/scsi/sd.c:1892-1916 | a failed command zeroes the capacity |
| SdCapacityCode.ScsiDisk.ReadCapacity16 | drivers/scsi/sd.c:1925-2019 | fields and return value after READ CAPACITY(16), retries included, for every sequence of replies |
| SdCapacityCode.ScsiDisk.ReadCapacity10 | drivers/scsi/sd.c:2021-2087 | fields and return value after READ CAPACITY(10), retries included, for every sequence of replies |
| SdCapacityCode.ScsiDisk.Discover | drivers/scsi/sd.c:2112-2160 | which command decides, and when to give up |
| SdCapacityCode.ScsiDisk.GotData | drivers/scsi/sd.c:2162-2240 | block size, use_16_for_rw, rescaling and reservation in one step: the reservation is taken off exactly on a first scan or a changed size that is larger |
| SdCapacityCode.ScsiDisk.Revalidate | drivers/scsi/sd.c:2665-2724 | from the replies to both commands, retries included: one step of the model; without garbled lengths, addresses still fit the commands in use, capacities are whole blocks, and an unchanged disk keeps its raw size less the reservation |
| SdCapacityCode.AllKept | drivers/scsi/sd.c:2665-2724 | every event without garbled lengths keeps all three promises at once |
| SdCdb.ValueOfBytes | drivers/scsi/sd.c:1002-1037 | n bytes give the number back exactly when it fits in n bytes |
| SdCdb.Fill6 | drivers/scsi/sd.c:1067-1071 | the device reads a 6-byte command back as 21-bit address and count, zero meaning 256 |
| SdCdb.Fill10 | drivers/scsi/sd.c:1045-1053 | the device reads back what four and two bytes hold, and both flags |
| SdCdb.Fill16 | drivers/scsi/sd.c:1024-1038 | the device reads back what eight and four bytes hold, and both flags |
| SdCdb.Fill32 | drivers/scsi/sd.c:988-1022 | the same for the 32-byte form, with the expected reference tag |
| SdCdb.KnownSix | drivers/scsi/sd.c:1067-1071 | a READ(6) and a WRITE(6) as bytes, and what they say |
| SdCdb.KnownTen | drivers/scsi/sd.c:1045-1053 | a WRITE(10) with FUA as bytes, and what it says |
| SdCdb.KnownSixteen | drivers/scsi/sd.c:1024-1038 | a READ(16) with protection as bytes, and what it says |
| SdCdb.KnownThirtyTwo | drivers/scsi/sd.c:988-1022 | a WRITE(32) as bytes, and what it says |
| SdPrep.ScansMakeSane | drivers/scsi/sd.c:2215-2236 | any history of scans without garbled lengths leaves a disk commands can be built for |
| SdPrep.AcceptedIff | drivers/scsi/sd.c:876-961 | exactly which requests are not killed: the disk is there, unchanged and takes writes, the request ends within it modulo 2^64, lies on whole blocks, and FUA does not meet a 6-byte command |
| SdPrep.LimitedPart | drivers/scsi/sd.c:899-910 | the last-sector workaround leaves a positive aligned part that ends at the threshold or is one block |
| SdPrep.CommandInside | drivers/scsi/sd.c:926-955 | the command is a non-empty part of the request, in device blocks |
| SdPrep.WillingIsGood | drivers/scsi/sd.c:1039-1073 | where FUA is no problem, a request accepted once is accepted to its end |
| SdPrep.FieldsSuffice | drivers/scsi/sd.c:1023-1066 | address and count fit the fields of the chosen form |
| SdPrep.InsideIff | drivers/scsi/sd.c:876-877 | an accepted request ends within the published capacity if and only if its end does not wrap around sector_t |
| SdPrep.CarriedIff | drivers/scsi/sd.c:987-1073 | for every accepted request, the device reads back the address and count meant if and only if a 10-byte command does not wrap around and a 6-byte one is not empty |
| SdPrep.CarriedExactly | drivers/scsi/sd.c:987-1073 | so no CDB truncates a request that is not empty and ends within sector_t |
| SdPrep.CommandsTile | drivers/scsi/sd.c:1039-1073 | the commands of a request tile its blocks without gap or overlap |
| SdPrep.CommandsProper | drivers/scsi/sd.c:876-910 | each ends within the published capacity and none crosses the threshold with more than one block |
| SdPrep.IssuedExactly | drivers/scsi/sd.c:876-1073 | every accepted request is issued exactly, 16-bit counts included, and no command reaches a disk that is offline, changed or write-protected |
| SdPrep.ReservedAreaUntouched | drivers/scsi/sd.c:876-877 | through any faithful history of scans, every command ends at least the reservation before the raw end of the disk |
| SdPrep.WrappedRequest | drivers/scsi/sd.c:876-877 | eight sectors at the far end of sector_t are accepted by a disk of 1000 sectors, which is told another address |
| SdPrep.FuaFinishes | drivers/scsi/sd.c:1054-1065 | on every 6-byte drive, last-sector bug or not, a FUA request is carried out in full if and only if its last command, the one up to the threshold and those behind it are too long or too far for 6 bytes |
| SdPrep.GoodIff | drivers/scsi/sd.c:1039-1073 | a request accepted but for FUA is issued to its end if and only if FUA is no problem or it fits |
| SdPrep.FuaCutShort | drivers/scsi/sd.c:1054-1065 | 308 sectors of which 300 are written and the rest is killed |
| SdPrep.EmptyRequest | drivers/scsi/sd.c:899-1071 | a request without sectors is read as one block past the threshold, else as 256 blocks in 6 bytes, else as none |
| SdPrep.EmptyBecomes256 | drivers/scsi/sd.c:1067-1071 | a read of nothing at sector 0 of a 6-byte drive is accepted and read as 256 blocks |
| SdPrep.EodStops | block/blk-core.c:1663-1675 | with a known size, bio_check_eod passes exactly the bios that end within it, so none that wraps around |
| SdPrep.ToBlocks | drivers/scsi/sd.c:926-955 | misaligned requests are refused, others converted |
| SdPrep.Vet | drivers/scsi/sd.c:876-961 | exactly the requests the model accepts pass, with its address and count, and none to a disk that is offline, changed or, for a write, write-protected |
| SdPrep.Build | drivers/scsi/sd.c:980-1073 | the form is chosen and filled so that the device reads what its bytes hold |
| SdPrep.Prepare | drivers/scsi/sd.c:828-1095 | killed, deferred or ready exactly as the model says, ready only for a disk that is there, unchanged and takes the request, with sdb.length for the blocks in the CDB |
| SdPrep.Send | drivers/scsi/sd.c:1073-1092 | one command and its completion give the promised access and the remaining request |
| SdPrep.IssueAll | drivers/scsi/sd.c:828-1095 | preparing and completing again and again ends with exactly the commands of the request |
| SdIssue.TakenOff | block/blk-core.c:2386-2415 | completing the bytes of a command leaves, in sectors and length, exactly the request the next command is built from |
| SdIssue.ReportsSnoc | block/blk-core.c:157-197 | the reports of one more completion follow those of the completions before it |
| SdIssue.Pass | drivers/scsi/sd.c:828-1095 | one command prepared, decoded and completed keeps commands sent, bios left and bios ended in step |
| SdIssue.IssueRequest | drivers/scsi/sd.c:828-1095 | a request prepared and completed to its end: the device, online, unchanged and writeable if need be, is told commands that tile its blocks and end within the disk, its chain is used up, and every bio is ended once, in order |
| SdDone.CompletedBytes | drivers/scsi/sd.c:1556-1603 | zero for a bad LBA out of range; else the bytes before the bad block or those transferred, whichever is less; also for 256-byte blocks, and without overflow |
| SdDone.FinishGood | drivers/scsi/sd.c:1556-1603 | completing that much through blk_update_request keeps the bad sector in the request, at its head without residual |
| SdNames.SuffixCounts | drivers/scsi/sd.c:2759-2790 | the suffix of an index counts back to it in bijective base 26 |
| SdNames.WordIsSuffix | drivers/scsi/sd.c:2759-2790 | every lower-case word is the suffix of an index |
| SdNames.DistinctNames | drivers/scsi/sd.c:2774-2796 | two indices have the same name only if they are the same |
| SdNames.FirstNames | drivers/scsi/sd.c:2774-2796 | a, z, aa, az, ba, zz, aaa |
| SdNames.WriteDigits | drivers/scsi/sd.c:2782-2790 | the digits end the buffer, exactly when there is room |
| SdNames.MoveDown | drivers/scsi/sd.c:2792-2792 | the overlapping move keeps the text |
| SdNames.FormatDiskName | drivers/scsi/sd.c:2774-2796 | -EINVAL exactly when the suffix does not fit, else prefix, suffix and NUL |
| SdNames.NumbersAre | drivers/scsi/sd.c:2815-2817 | bits 4-7 of the index pick the major, bits 0-3 and 8-19 the first minor |
| SdNames.NumbersCollideExactly | drivers/scsi/sd.c:2815-2817 | device number ranges meet exactly for indices equal in their low 20 bits |
| SdNames.NumbersDistinct | drivers/scsi/sd.c:506-519 | below 2^20 no two disks share a device number |
| CommandReserve.SetupInv | drivers/scsi/scsi.c:487-511 | a host set up satisfies the invariant |
| CommandReserve.SenseStep | drivers/scsi/scsi.c:178-214 | live sense buffers and live commands stay one to one |
| CommandReserve.ProtStep | drivers/scsi/scsi.c:224-243 | so do protection buffers on hosts that have them |
| CommandReserve.PlacesStep | drivers/scsi/scsi.c:253-341 | every live command is held, reserved or being freed, in one place, and the reserve is missing only while one is held |
| CommandReserve.BuffersStay | drivers/scsi/scsi.c:268-278 | a command keeps its two buffers through recycling |
| CommandReserve.BuffersStayOverRuns | drivers/scsi/scsi.c:268-278 | over any run in which it is not freed |
| CommandReserve.RunKeepsInv | drivers/scsi/scsi.c:253-364 | every interleaving of gets and puts keeps the invariant |
| CommandReserve.Counted | drivers/scsi/scsi.c:253-341 | allocations are outstanding, being freed or in reserve |
| CommandReserve.EmergencyReserve | drivers/scsi/scsi.c:253-535 | over every run: at most one in reserve, none only while one is out, allocations add up, a get is refused only while one is out |
| CommandReserve.IdleHost | drivers/scsi/scsi.c:517-535 | an idle host owns one command with its buffers and cannot refuse a get |
| CommandReserveCode.GetDelivers | drivers/scsi/scsi.c:292-315 | a get is refused exactly when an allocation fails and the reserve is out, which is only while another command is; else its command is new to the callers, wiped, and no other changed |
| CommandReserveCode.ScsiHost.PoolAlloc | drivers/scsi/scsi.c:178-195 | command and sense buffer, or nothing |
| CommandReserveCode.ScsiHost.PoolFree | drivers/scsi/scsi.c:205-214 | command and both buffers go back |
| CommandReserveCode.ScsiHost.HostAlloc | drivers/scsi/scsi.c:224-243 | all three allocations, or nothing left allocated |
| CommandReserveCode.ScsiHost.GetUnlinked | drivers/scsi/scsi.c:253-282 | the recycled command is wiped but for its buffers |
| CommandReserveCode.ScsiHost.GetCommand | drivers/scsi/scsi.c:292-315 | scsi_get_command is exactly one step of the protocol, and refused exactly if the device is gone, or an allocation fails and the reserve is out |
| CommandReserveCode.ScsiHost.PutCommand | drivers/scsi/scsi.c:324-364 | scsi_put_command fills the empty reserve or frees the command |
| CommandReserveCode.ScsiHost.SetupFreelist | drivers/scsi/scsi.c:487-511 | success is the initial state, failure leaves nothing allocated |
| CommandReserveCode.ScsiHost.DestroyFreelist | drivers/scsi/scsi.c:517-535 | with all commands returned, all memory goes back |
| Crc32Table.Table | drivers/scsi/swap/crc32.c:14-68 | each of the 256 constants is eight steps of the reflected division of its index |
| Crc32.BytePasses | drivers/scsi/swap/crc32.c:71-71 | eight steps shift the upper 24 bits down untouched |
| Crc32.TableStep | drivers/scsi/swap/crc32.c:71-71 | one lookup replaces eight steps |
| Crc32.Do1 | drivers/scsi/swap/crc32.c:71-71 | DO1 feeds one byte |
| Crc32.Do8 | drivers/scsi/swap/crc32.c:72-74 | the unrolled step feeds eight bytes |
| Crc32.SwapCrc32 | drivers/scsi/swap/crc32.c:77-95 | the whole function is the bitwise CRC-32 of section 8 of RFC 1952, for every buffer and start value; check value and residue are below |
| Crc32.LeIsBits | drivers/scsi/swap/log.c:92-109 | a word stored in the byte order of the head is fed as its bits, lowest first |
| Crc32.CheckValue | drivers/scsi/swap/crc32.c:77-95 | the CRC of the nine digits is 0xCBF43926 |
| Crc32.Residue | drivers/scsi/swap/crc32.c:77-95 | for every start value, a message followed by its CRC in little-endian order has the CRC 0x2144DF1C |
| Crc32.FoldConcat | drivers/scsi/swap/crc32.c:82-93 | feeding a concatenation is feeding its parts in turn |
| Crc32.CrcContinues | drivers/scsi/swap/crc32.c:77-95 | crc(crc(c, a), b) = crc(c, a ++ b) |
| Crc32.FoldIsSerial | drivers/scsi/swap/crc32.c:77-95 | feeding bytes is feeding their bits, lowest first, one step each |
| Crc32.FoldInjective | drivers/scsi/swap/crc32.c:82-93 | no byte sequence merges two register values |
| Crc32.MeetingClose | drivers/scsi/swap/crc32.c:82-93 | registers that meet after n more bits, n at most 32, differ only in their n lowest bits |
| Crc32.WindowInjective | drivers/scsi/swap/crc32.c:82-93 | from one register, different inputs of at most 32 bits lead to different registers |
| Crc32.LongerBurstMissed | drivers/scsi/swap/crc32.c:82-93 | from every register, two different inputs of 33 bits lead to the same one |
| Crc32.BurstDetected | drivers/scsi/swap/crc32.c:77-95 | buffers that agree outside 32 consecutive bits, at any bit offset, have equal CRCs exactly when they are equal |
| Crc32.ChangeDetected | drivers/scsi/swap/crc32.c:77-95 | any change confined to four consecutive bytes changes the CRC |
| Ring.PushWhileFilling | drivers/scsi/swap/ring.h:92-103 | a push into a ring with room, wherever it stands, appends to the window |
| Ring.PushWhenFull | drivers/scsi/swap/ring.h:92-103 | a push into a full ring replaces the oldest |
| Ring.PeekSlot | drivers/scsi/swap/ring.h:32-33 | the index formula finds the i-th oldest item |
| Ring.PeekInside | drivers/scsi/swap/ring.h:32-112 | for any two counters, with the remainder of C: the slot of item i lies inside the buffer if and only if num <= next + cap or i reaches (num - next - cap) mod cap |
| Ring.AllPeeksInside | drivers/scsi/swap/ring.h:32-112 | all items lie inside if and only if num <= next + cap or cap divides the excess |
| Ring.Ring.constructor | drivers/scsi/swap/ring.h:69-90 | a new ring is empty |
| Ring.Ring.Update | drivers/scsi/swap/ring.h:46-56 | the counters are limited, and an empty ring starts over |
| Ring.Ring.Push | drivers/scsi/swap/ring.h:92-103 | the item goes into the buffer if and only if next lies in it, and the counters are those of a ring afterwards; after any pushes a ring holds the last min(pushes, capacity) items |
| Ring.Ring.Peek | drivers/scsi/swap/ring.h:105-112 | peek(i) is the i-th oldest of them |
| SwapLog.ParseImage | drivers/scsi/swap/log.c:103-143 | a head written to a sector is read back |
| SwapLog.ImageLayout | drivers/scsi/swap/log.c:92-109 | checksum, item_num and item_next, lowest byte first, and zeros behind |
| SwapLog.ZerosRefused | drivers/scsi/swap/log.c:146-151 | a sector of zeros does not load |
| SwapLog.WrittenHeadLoads | drivers/scsi/swap/log.c:92-151 | a written head passes its check and restores both counters |
| SwapLog.SameCrcSameHead | drivers/scsi/swap/log.c:146-151 | two sectors that load with the same stored crc hold the same head |
| SwapLog.DamageRefused | drivers/scsi/swap/log.c:146-151 | damage confined to the counters or to the crc of a good head is refused |
| SwapLog.LoadsOutsideTheRing | drivers/scsi/swap/log.c:146-189 | a head that passes its check although its oldest item would lie before the ring |
| SwapLog.Log.CrcHead | drivers/scsi/swap/log.c:46-50 | the checksum covers the two counters |
| SwapLog.Log.UpdateHead | drivers/scsi/swap/log.c:92-109 | a successful update leaves a sector that loads with the ring's counters |
| SwapLog.Log.Load | drivers/scsi/swap/log.c:128-159 | loading succeeds exactly when both reads do and the check passes |
| SwapLog.Log.Init | drivers/scsi/swap/log.c:161-194 | the ring takes over the counters of the head; it is a proper ring if they have the shape of one, and all its items lie inside the buffer exactly under the condition on them |
| SwapLog.Log.Push | drivers/scsi/swap/log.c:249-273 | from any counters a head may hold: the item enters the ring exactly if next lies in it, and success leaves a head with the new counters |
| SwapLog.Log.Peek | drivers/scsi/swap/log.c:111-117 | found exactly for indices in range, and then the i-th oldest |
| SwapLog.Log.Last | drivers/scsi/swap/log.c:119-126 | the newest item, if there is one |
| SwapLog.Reboot | drivers/scsi/swap/log.c:92-194 | a log written out and loaded again stands where it stood |
| SwapEngine.Alloc | drivers/scsi/swap/core.h:81-88 | allocation takes a free block that accepts a write, only sets bits, changes no used block, and comes out as the bitmap and the tries alone decide |
| SwapEngine.Create | Documentation/scsi_swap_design.txt:52-55 | an entry is made exactly when the limit, memory, the bitmap and the head allow it, with a block that was free |
| SwapEngine.RecreateFacts | Documentation/scsi_swap_design.txt:52-55 | an entry is moved exactly when the limit and the bitmap allow it, and that succeeds exactly when data and head can be written; its data is then what could be salvaged, and a failed move gives its block back |
| SwapEngine.RewriteFacts | Documentation/scsi_swap_design.txt:46-50 | swap_write gives 0, -DATA_MAY_DIRTY or -1 exactly as the answers decide; unless -1 the data is in memory and in the entry's block, and no other used block changed |
| SwapTurns.GatheredKeeps | Documentation/scsi_swap_design.txt:52-55 | a new entry holds the rest of its block as it stands on the disk if and only if both neighbour reads deliver that |
| SwapTurns.ListedTurn | Documentation/scsi_swap_design.txt:46-50 | a write to a remapped block fails exactly then, else shows; other blocks are untouched, and the rest of the block is kept exactly if the first write succeeds or what was salvaged agrees |
| SwapTurns.ListedOwners | Documentation/scsi_swap_design.txt:46-50 | the entries keep blocks of their own if and only if not: the first write fails, a block is allocated, and the data or the head cannot be written |
| SwapTurns.CreatedTurn | Documentation/scsi_swap_design.txt:52-55 | a write that needs a new mapping succeeds exactly when it can be made and written; it then shows, and the rest of the block is kept exactly if both neighbour reads deliver it |
| SwapTurns.WriteTurnFacts | Documentation/scsi_swap_design.txt:46-55 | one turn of the write loop: exactly when it fails, what shows, which blocks get an entry, and exactly when the rest of its block is kept |
| SwapTurns.WriteTurnTidy | Documentation/scsi_swap_design.txt:46-55 | a turn that does not fail leaves every entry a block of its own that mirrors it |
| SwapTurns.ReadTurnFacts | Documentation/scsi_swap_design.txt:46-55 | one turn of the read loop: exactly when it fails, when its block gets an entry and the sectors read become zeros, and when the rest is kept; ReadTurnCounts and ReadTurnFailsIff add the number of entries and the cause |
| SwapLoops.AddressesIff | drivers/scsi/swap/core.h:63-65 | every turn looks up and addresses its own block if and only if the request ends by sector 2^32 |
| SwapLoops.KnownIff | drivers/scsi/swap/core.h:63-65 | a block is treated as bad without being tried exactly if the caller names a sector of it |
| SwapLoops.WriteFailsIff | Documentation/scsi_swap_design.txt:46-55 | a write returns -1 if and only if the device is dead or a turn that is reached fails |
| SwapLoops.WriteShows | Documentation/scsi_swap_design.txt:46-55 | for every write that ends by sector 2^32: only its blocks are touched, unless -1 the data shows, and 0 means nothing else changed |
| SwapLoops.WriteKeepsIff | Documentation/scsi_swap_design.txt:46-55 | while entries own their blocks, a write that does not fail keeps them so and leaves all other sectors alone if and only if each turn does, decided by the state before the call and the answers |
| SwapLoops.GentleWrite | Documentation/scsi_swap_design.txt:46-55 | first writes and neighbour reads that succeed are enough for that, whoever owns which block |
| SwapLoops.EasyWrite | Documentation/scsi_swap_design.txt:46-55 | a live device that takes every write gives 0, without using an entry or a reserved block |
| SwapReads.ReadFailsIff | Documentation/scsi_swap_design.txt:46-55 | a read returns -1 if and only if the device is dead or a turn that is reached fails |
| SwapReads.ReadShows | Documentation/scsi_swap_design.txt:46-55 | for every read that ends by sector 2^32: only its blocks are touched; unless -1 it returns what the disk showed, or zeros where a block got an entry; and 0 means no block did and nothing changed |
| SwapReads.ReadKeepsIff | Documentation/scsi_swap_design.txt:46-55 | a read that does not fail leaves all other sectors alone if and only if each turn does |
| SwapReads.ReadTidy | Documentation/scsi_swap_design.txt:46-55 | a read leaves every entry a block of its own that mirrors it |
| SwapRuns.CallRefines | Documentation/scsi_swap_design.txt:46-55 | a call that returns 0, or does not fail and has calm answers, is one operation on a plain disk; reads return what it then holds |
| SwapRuns.CallsRefine | Documentation/scsi_swap_design.txt:46-55 | so is any sequence of such calls: the disk with its remapped blocks refines the plain disk |
| SwapRuns.PlainCalls | Documentation/scsi_swap_design.txt:46-55 | on a live device without trouble every call of a sequence returns 0 |
| SwapRuns.WriteThenRead | Documentation/scsi_swap_design.txt:46-55 | what was written and reported done is what a clean read gives back |
| SwapCounts.CallsCount | drivers/scsi/swap/core.h:81-88 | over every run of calls info_num is the number of entries, and at most 128 |
| SwapCounts.WriteCounts | drivers/scsi/swap/core.h:81-88 | the same for every write, beyond sector 2^32 too |
| SwapCounts.WriteTurnCounts | drivers/scsi/swap/core.h:81-88 | a turn of the write loop adds at most one entry, and counts it |
| SwapCounts.ReadCounts | drivers/scsi/swap/core.h:81-88 | the same for every read |
| SwapCounts.ReadTurnCounts | drivers/scsi/swap/core.h:81-88 | a turn of the read loop counts a new entry exactly when it makes one |
| SwapCounts.PickIff | drivers/scsi/swap/core.h:81-88 | allocation finds a block if and only if one of the first seventeen tries succeeds while there are free blocks for all before it |
| SwapCounts.AllocGivesUp | drivers/scsi/swap/core.h:81-88 | the device is given up exactly when seventeen free blocks in a row do not take a write |
| SwapCounts.ListedFailsIff | Documentation/scsi_swap_design.txt:46-50 | a write to a remapped block fails exactly when the first write fails and the entry cannot be moved and written, in terms of state and answers |
| SwapCounts.UnlistedFailsIff | Documentation/scsi_swap_design.txt:52-55 | a write to any other block fails exactly when the block is bad and no entry can be made and written |
| SwapCounts.ReadTurnFailsIff | Documentation/scsi_swap_design.txt:52-55 | the same for reads |
| SwapCounts.NotReadyKills | Documentation/scsi_swap_design.txt:52-55 | a unit that is not ready is dead from then on, and gets no entry |
| SwapCounts.CreateLeaves | Documentation/scsi_swap_design.txt:52-55 | a failed creation leaves only bad blocks marked |
| SwapCounts.ReadLeaves | Documentation/scsi_swap_design.txt:52-55 | so does a read that cannot write its new entry |
| SwapCounts.WriteLeaves | Documentation/scsi_swap_design.txt:52-55 | a write that cannot: the same, unless the entry was moved, whose first block then stays marked |
| SwapFaults.ShareBlock | drivers/scsi/swap/core.h:81-88 | from every engine with one entry in order, a failing write to it and a working one elsewhere end with two entries on one block, and not both mirrored |
| SwapFaults.OwnershipLost | drivers/scsi/swap/core.h:81-88 | the same from an empty engine |
| SwapFaults.NeighbourLost | Documentation/scsi_swap_design.txt:52-55 | writing one sector of a bad block whose other sectors cannot be read changes the next sector |
| SwapFaults.WrapsToBlockZero | drivers/scsi/swap/core.h:63-65 | with block 0 remapped, a write to sector 2^32 is reported as done, shows in sector 0, and leaves sector 2^32 as it was |
| SwapFaults.WritesRightIff | drivers/scsi/swap/core.h:63-65 | all writes of a length at a start, from all states and answers, go where they were meant to if and only if they end by sector 2^32 |
| SwapFaults.ReadsRightIff | drivers/scsi/swap/core.h:63-65 | all reads of a length at a start that return 0 return what the disk shows if and only if they end by sector 2^32 |
| SwapCore.Core.FirstZero | drivers/scsi/swap/core.h:81-88 | the first free block of the bitmap, or none when all are used |
| SwapCore.Core.AllocBlock | drivers/scsi/swap/core.h:81-88 | the loop over bad blocks gives exactly the allocation |
| SwapCore.Core.GetAround | Documentation/scsi_swap_design.txt:52-55 | the two reads gather the block, which agrees with the disk exactly if they deliver what stands there |
| SwapCore.Core.CreateInfo | Documentation/scsi_swap_design.txt:52-55 | swap_create makes exactly the entry and the state |
| SwapCore.Core.RecreateInfo | Documentation/scsi_swap_design.txt:52-55 | swap_recreate, with its sector by sector loop and its late failure, gives exactly the moved entry |
| SwapCore.Core.SwapWrite | Documentation/scsi_swap_design.txt:46-50 | swap_write gives exactly the rewritten entry, with all that is proved of it |
| SwapCore.Core.WriteToInfo | Documentation/scsi_swap_design.txt:46-50 | a write to a remapped block is exactly the turn, and says when ownership is lost |
| SwapCore.Core.WriteToNew | Documentation/scsi_swap_design.txt:52-55 | a write that needs a new mapping is exactly the turn |
| SwapCore.Core.WriteBlock | Documentation/scsi_swap_design.txt:46-55 | the body of the write loop is exactly one turn, and info_num stays the number of entries |
| SwapCore.Core.ReadFromNew | Documentation/scsi_swap_design.txt:52-55 | a read that needs a new mapping is exactly the turn |
| SwapCore.Core.CoreWrite | Documentation/scsi_swap_design.txt:46-55 | the whole call, with its 32-bit addresses, is exactly the write, and info_num stays the number of entries, at most 128; for requests that end by sector 2^32 it keeps all its promises |
| SwapCore.Core.ReadBlock | Documentation/scsi_swap_design.txt:46-55 | the body of the read loop is exactly one turn; from an engine that counts its entries, info_num stays their number, at most 128, and grows exactly when the block is given one |
| SwapCore.Core.CoreRead | Documentation/scsi_swap_design.txt:46-55 | the whole call is exactly the read, and info_num stays the number of entries, at most 128; for requests that end by sector 2^32 it keeps all its promises |
| SwapCore.Core.DidBlockSwapped | Documentation/scsi_swap_design.txt:46-50 | a request counts as remapped exactly when some entry starts within its blocks |
| SwapView.Cut | drivers/scsi/swap/core.h:63-65 | the wrapping 32-bit arithmetic gives the right number of sectors for every turn, and the address modulo 2^32 |
| SwapView.KeyBelow | drivers/scsi/swap/core.h:63-65 | the block looked up is the block meant if and only if that lies below sector 2^32 |
| SwapView.Turns | drivers/scsi/swap/core.h:63-65 | the turns of both loops go block by block, each inside one block, and end with the request |
| SwapView.LastTurn | drivers/scsi/swap/core.h:63-65 | the block count covers the request exactly |

## Left out

- Other request lists, changing limits: one root list, constant nr_requests, and the batching test as a free choice.
- Processes and bios as objects: processes are anonymous counts, bios and requests are values, so aliasing between them is not captured.
- Elevators, cgroups, tracing, statistics, timers, power management: outside the files modelled; their answers are free choices.
- Failfast bits and mixed merges.
- list_sort as an algorithm: a sorted permutation is used for it.
- Discard, write-same, flush and block-PC requests in sd_prep_fn, protection operations, and 256-byte sectors there.
- Log items on disk: item sectors and item checksums are not claimed to be valid.
- SwapLog.Log.Init: the item data it takes over is whatever the device delivers; peeks are modelled for counters of the shape a ring has.
- RequestQueueCode.RequestQueue.DrainPass: a queue without request_fn is taken to have no sleepers, as only request-based queues allocate requests.
- The head and table sectors of the swap area, their backups and their parsing at start-up.
- SwapCore.Core.CoreWrite: promises no more than the count of entries for requests that end beyond sector 2^32, and nothing of sectors around those written where a turn does not keep them, or of ownership after -1, which `ListedOwners` decides.
- SwapCore.Core.CoreRead: promises no more than the count of entries for requests that end beyond sector 2^32.
- Concurrency in the remapping engine: calls are taken one at a time, with the device dying at any point between them.
- swap_bio, its work queue, the simulated bad sectors, sysfs and the raw device commands.
- SCSI error handling, scsi_allocate_command and the reference counts of devices and pools.
