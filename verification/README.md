# Verified models of the greaseLib logger and its bundled allocator

A Dafny model of the parts of greaseLib, and of the gperftools code it bundles, whose correctness depends on
protocols, linked structures or arithmetic, with proofs. `dafny verify dfyconfig.toml` checks all of it.

- **Central free lists** (`CentralState`, `CentralInvariant`, `CentralMoves`, `CentralSpans`, `CentralSteps`,
  `CentralRuns`, `CentralCalls`): tcmalloc's central lists as a state machine over any number of threads. A step is what a thread does
  between two lock operations, so a run is any interleaving of critical sections, including the places where
  ReleaseToSpans, ShrinkCache and Populate drop the lock and retake it. `CentralChains` adds the words in memory that
  the steps read and write. `CentralLinks` and `ObjectChains` are the same operations on object links, as classes that
  relink chains in place, and `CentralImages` ties them to the steps; `CentralGeometry` ties the lists to addresses and
  to the size map. `Basics` holds what several modules share.
- **Size classes** (`SizeMap`, `DefaultClasses`): the loops that compute classes, spans and the class array, and their
  outcome for the default transfer limit.
- **AddressMap and the leak checker** (`AddressMap`, `AddressTable`, `HeapProfile`, `LeakChecker`): the hashed
  three-level index as a refinement of a plain map, the backward search over it, the live and ignore bits, the flood
  over memory words and the sweep.
- **Log targets** (`LogBanks`, `LogBankSteps`, `LogRuns`, `LogKeepAlive`, `LogCalls`, `LogTargets`): the life of a
  bank, the lines in it, the shared callback queue and the keep-alive counter, over every run of the events of all
  targets.
- **Filter routing** (`FilterRouting`), **file rotation** (`FileRotation`), **sink frames** (`FrameCodec`).
- **Delayed frees** (`FreeRing`, `FreeRingRuns`) and **hook lists** (`HookList`, `HookRuns`): each as the class and as
  every interleaving of its callers.

Pointers are numbers into explicit memory (`next`, `enext`, `cnext` maps), so that aliasing is visible. Fields marked as
history record what happened and decide nothing.

Where code and comments disagree, the model follows the code:

- heap-profile-table.h says the snapshot of non-live objects leaves out ignored ones; AddIfNonLive looks only at the
  live bit (`LeakChecker.IgnoredIsReported`). Ignored objects stay out of reports because they are flooded as roots
  (`LeakChecker.IgnoredStayOut`).
- logger.h:3404 says `max_files` includes the current file; rotate_files keeps `max_files` rotated files beside it
  (`FileRotation.FileTarget.RotateFiles`).
- The comments in sift call the second probe "just tag" and the third "just origin"; the masks make them origin alone
  and tag alone (`FilterRouting.GetHashes`), so an origin rule wins over a tag rule.
- A filter list of 16 has no end mark: the scan in handleInternalCmd reads past it. `FilterRouting.FilterTable.Route`
  says exactly when.
- Disabling a filter that was never added (id 0) disables an empty slot, and Filter's assignment does not copy the flag,
  so the next filter added there starts out disabled (`FilterRouting.FilterTable.SetDisabled`, `AddFilter`).
- Buffers of the default target that are handed to a callback are lost when given back
  (`LogRuns.DefaultTargetLosesBank`, `LogRuns.DefaultTargetHandsOut`).
- Data thrown away by a rotation, an empty write and an untracked overflow write keep their keep-alive references, so
  the flush timer never stops again after one (`LogKeepAlive.TimerStopsIff`).
- An empty message without footer gets no delimiter (`LogBanks.RenderedIsLine`).
- logger.h:3405 says a `max_total_size` of 0 is no setting; check_files compares against it all the same, so any
  non-empty file makes a rotation due (`FileRotation.FileTarget.CheckFiles`).
- A transfer limit of -4 or less makes SizeMap::Init loop for ever (`SizeMap.LoopStopsIff`).
- Delayed frees are popped in push order but, with several callers, not always freed in it
  (`FreeRingRuns.OverlapCanSwap`).

## Model

| member | source | states |
|---|---|---|
| `CentralRuns.OnePlace` | deps/gperftools-2.4/src/central_freelist.cc:82-149 | In every state of every interleaved run each object of a live span is in exactly one place: its span's free list, one transfer slot of one class, one thread's hands, or with the client; no list repeats an object. |
| `CentralRuns.RemoveRangeReturns` | deps/gperftools-2.4/src/central_freelist.cc:246-278 | RemoveRange returns at most N distinct objects of its class, none with the client before and all after, nothing else changing hands; exactly N from the cache; fewer only when the class has no free object; none only after the page heap was asked. |
| `CentralCalls.CachedChainIsUsed` | deps/gperftools-2.4/src/central_freelist.cc:246-259 | In every run RemoveRange under its lock returns at once exactly when N is the transfer size and a slot is used; exactly the objects of the last used slot become the client's, and the slot is free. |
| `CentralCalls.FetchGoes` | deps/gperftools-2.4/src/central_freelist.cc:260-278 | Otherwise, while objects are missing, it takes as many as are missing or there are off the front of the first non-empty span; asks the page heap once and only with nothing in hand; and hands over exactly what it gathered. |
| `CentralCalls.InsertedChainGoes` | deps/gperftools-2.4/src/central_freelist.cc:230-244 | InsertRange puts a chain of the transfer length into a free slot when there is one; otherwise it tries another class iff its cache may grow, and else gives the chain to the spans. |
| `CentralCalls.EvictedChainGoes` | deps/gperftools-2.4/src/central_freelist.cc:167-186 | With a slot taken from another class the cache grows by it and takes the chain, unless it has reached its maximum meanwhile; without one it tries by force before it gives up. |
| `CentralCalls.VictimGivesSlot` | deps/gperftools-2.4/src/central_freelist.cc:203-228 | ShrinkCache takes a slot exactly when the victim has one that is free or force is used; a used one is emptied and its chain, and only that, goes to the spans. |
| `CentralCalls.ReleasedObjectGoes` | deps/gperftools-2.4/src/central_freelist.cc:104-149 | ReleaseToSpans: the span leaves for the page heap exactly when every other object of it is on its free list; otherwise the object is in front of that list. |
| `CentralRuns.SpanLeavesWhole` | deps/gperftools-2.4/src/central_freelist.cc:129-145 | A span leaves for the page heap only in ReleaseToSpans, and only when every object of it but the one being returned is on its own free list. |
| `CentralRuns.SlotBounds` | deps/gperftools-2.4/src/central_freelist.cc:167-244 | 0 <= used_slots_ <= cache_size_ <= max_cache_size_ <= 64 for every class in every state, and the sum of cache_size_ never exceeds its starting value of 16 slots a class, or its maximum where that is less. |
| `CentralRuns.OneLock` | deps/gperftools-2.4/src/central_freelist.cc:189-229 | No thread owns two of the class and page-heap locks, and a thread waiting for a lock owns none. |
| `CentralRuns.NeverStuck` | deps/gperftools-2.4/src/central_freelist.cc:138-144 | Whenever a thread is inside an operation, some thread inside one can step: the hand-over-hand locking cannot deadlock, and nothing a lock holder relies on is missing. |
| `CentralRuns.Accounting` | deps/gperftools-2.4/src/central_freelist.cc:104-149 | Free-list length + refcount = objects per span; counter_ is the sum of free-list lengths; num_spans_ = both lists together; a span is on nonempty_ iff its free list is non-null. |
| `CentralRuns.RunInv` | deps/gperftools-2.4/src/central_freelist.cc:47-368 | The invariant behind all of these holds along every run, and cache slots plus owed slots never grow: each growth is paid for by an earlier shrink. |
| `CentralRuns.StepPaid` | deps/gperftools-2.4/src/central_freelist.cc:167-228 | Every step keeps the number of cache slots, those owed included, except that one is lost where a thread comes back with a slot and finds its own cache at its maximum. |
| `CentralChains.AlwaysLinked` | deps/gperftools-2.4/src/central_freelist.cc:82-368 | In every state of every interleaved run every span's free list, every transfer slot and every chain a thread carries is a null-terminated chain in memory, whatever clients write into the objects they hold. |
| `CentralChains.ReturnsLinked` | deps/gperftools-2.4/src/central_freelist.cc:246-278 | What RemoveRange hands over, from the cache or from spans, is one null-terminated chain of distinct objects in memory at that moment. |
| `CentralChains.ReadsAgree` | deps/gperftools-2.4/src/central_freelist.cc:82-88 | The link read before a release overwrites it, and the one read where a list is cut, are those of the objects that come next. |
| `CentralChains.StepLinks` | deps/gperftools-2.4/src/central_freelist.cc:104-149 | Each step of each thread, with exactly the words it writes, keeps all chains. |
| `CentralImages.FetchIsFetched` | deps/gperftools-2.4/src/central_freelist.cc:290-318 | A fetch of a run is the link-level operation FetchFromOneSpans implements. |
| `CentralImages.PutBackIsReleased` | deps/gperftools-2.4/src/central_freelist.cc:104-149 | An object put back in a run is the link-level release. |
| `CentralImages.RetireIsReleased` | deps/gperftools-2.4/src/central_freelist.cc:129-136 | So is the release with which a span leaves the lists. |
| `CentralImages.ChainIsChain` | deps/gperftools-2.4/src/linked_list.h:44-50 | Chains of a run are chains of addresses where objects have distinct non-null addresses. |
| `CentralGeometry.ConfigIsValid` | deps/gperftools-2.4/src/central_freelist.cc:54-77 | Whatever the size map computes gives the central lists spans with at least one object, a positive transfer size and at most 64 cache entries. |
| `CentralGeometry.CacheIsOneMegabyte` | deps/gperftools-2.4/src/central_freelist.cc:66-75 | max_cache_size_ is the most slots, up to 64, that hold at most 1 MB of objects, and one in any case. |
| `CentralGeometry.OverheadInRun` | deps/gperftools-2.4/src/central_freelist.cc:375-385 | In every state of every run OverheadBytes of a class is exactly what its objects leave of the bytes in the spans on its two lists, and at most an eighth of those. |
| `CentralGeometry.MapObjectToSpan` | deps/gperftools-2.4/src/central_freelist.cc:98-102 | The object's own span covers the page of its address, and no other span the page heap has handed out does. |
| `CentralGeometry.ObjectsDoNotOverlap` | deps/gperftools-2.4/src/central_freelist.cc:346-358 | No two live objects, of the same span or not, share a byte. |
| `CentralLinks.SpanLists.Walk` | deps/gperftools-2.4/src/central_freelist.cc:296-302 | The do-while walk takes min(N, length) links and ends at NULL exactly when the list is used up. |
| `CentralLinks.SpanLists.FetchFromOneSpans` | deps/gperftools-2.4/src/central_freelist.cc:290-318 | Cuts a null-terminated chain of the first objects off the first non-empty span, leaving a well-linked remainder, and moves a used-up span to the empty list. |
| `CentralLinks.SpanLists.RemoveRange` | deps/gperftools-2.4/src/central_freelist.cc:260-275 | The gathered result is one null-terminated chain of exactly `result` distinct objects, the free ones that are no longer free; short only when nothing is left. |
| `CentralLinks.SpanLists.ReleaseToSpans` | deps/gperftools-2.4/src/central_freelist.cc:104-149 | The object goes in front of its span's list, or the span leaves the lists when it was the last one out; all other links stay. |
| `CentralLinks.SpanLists.ReleaseListToSpans` | deps/gperftools-2.4/src/central_freelist.cc:82-88 | Releases every object of the chain once, in chain order, though each release overwrites a link of it. |
| `CentralLinks.SpanLists.Carve` | deps/gperftools-2.4/src/central_freelist.cc:346-360 | The splitting loop links exactly (length << kPageShift) / size objects, the count ReleaseToSpans subtracts later, at base + i * size. |
| `ObjectChains.ChainUnique` | deps/gperftools-2.4/src/linked_list.h:44-50 | The links determine the chain. |
| `ObjectChains.LinkMemory.Push` | deps/gperftools-2.4/src/linked_list.h:52-55 | The element is in front of the old chain. |
| `ObjectChains.LinkMemory.Pop` | deps/gperftools-2.4/src/linked_list.h:57-61 | Returns the first object and the chain of the rest. |
| `ObjectChains.LinkMemory.PopRange` | deps/gperftools-2.4/src/linked_list.h:67-84 | Splits the chain after N objects into two null-terminated chains; other links are untouched. |
| `ObjectChains.LinkMemory.PushRange` | deps/gperftools-2.4/src/linked_list.h:86-90 | The range is in front of the old chain; an empty range changes nothing. |
| `ObjectChains.LinkMemory.Size` | deps/gperftools-2.4/src/linked_list.h:92-99 | Counts the chain. |
| `SizeMap.LgFloor` | deps/gperftools-2.4/src/common.cc:63-75 | 2^log <= n < 2^(log+1) for every 32-bit n > 0, by five conditional shifts. |
| `SizeMap.AlignmentForSize` | deps/gperftools-2.4/src/common.cc:77-97 | A power of two between 8 and the page size, at least 16 from size 16 up, so neither CHECK can fail; from 128 up more than a sixteenth and at most an eighth of the size, or a page. |
| `SizeMap.NextSize` | deps/gperftools-2.4/src/common.cc:139-141 | From an aligned size the next size visited is again a multiple of its own alignment and does not jump past kMaxSize. |
| `SizeMap.SpanBytes` | deps/gperftools-2.4/src/common.cc:143-155 | For a count that is not negative the page-growing loops stop, at the least number of pages with leftover <= 1/8 and enough objects, long before psize wraps; at least one object fits. |
| `SizeMap.NegativeLimitNeverStops` | deps/gperftools-2.4/src/common.cc:143-155 | With a transfer limit of -4 or less the unsigned comparison keeps the loop going at every page count. |
| `SizeMap.LoopStopsIff` | deps/gperftools-2.4/src/common.cc:139-155 | For every class size and every 32-bit limit, some page count below 2^64 bytes ends the loops exactly when the limit is at least -3. |
| `SizeMap.ComputeClasses` | deps/gperftools-2.4/src/common.cc:135-175 | For every limit with which the loops end: increasing classes ending exactly at kMaxSize, each, merged ones included, with a best span for its own size. Every visited size up to a class needs the same pages and gives as many objects in them as the class size; the next visited size after it differs in one of the two. |
| `SizeMap.FillClassArray` | deps/gperftools-2.4/src/common.cc:181-189 | Every entry of class_array_ is the least class for the largest size that maps to it. |
| `SizeMap.SizeMapTables.Init` | deps/gperftools-2.4/src/common.cc:122-218 | For every limit from -3 up: succeeds exactly when the class count is right, which is a function of the limit alone, and then all the tables agree and the classes are the groups of visited sizes. |
| `SizeMap.MovesAbout64K` | deps/gperftools-2.4/src/common.cc:99-119 | A transfer moves the most objects that make up 64 KB, but at least two and at most the limit. |
| `DefaultClasses.InitDefault` | deps/gperftools-2.4/src/common.cc:122-178 | With the default limit of 32768 Init succeeds: there are exactly 88 classes. |
| `SizeMap.SizeMapTables.SizeClass` | deps/gperftools-2.4/src/common.h:198-227 | For every size from 0 to kMaxSize the result is the least class whose size is at least that size. |
| `AddressTable.Table.FindCluster` | deps/gperftools-2.4/src/addressmap-inl.h:214-233 | Finds the cluster of an address exactly when there is one. |
| `AddressTable.Table.GetCluster` | deps/gperftools-2.4/src/addressmap-inl.h:214-233 | With creation: the cluster exists afterwards and the map is unchanged. |
| `AddressTable.Table.FindMutable` | deps/gperftools-2.4/src/addressmap-inl.h:295-306 | A pointer to the entry of the key, or NULL exactly when the plain map has no such key. |
| `AddressTable.Table.Find` | deps/gperftools-2.4/src/addressmap-inl.h:290-292 | Agrees with the plain map for every key. |
| `AddressTable.Table.Insert` | deps/gperftools-2.4/src/addressmap-inl.h:309-338 | The plain map is updated at that key and nowhere else; recycled or new entry, new or existing cluster. |
| `AddressTable.Table.FindAndRemove` | deps/gperftools-2.4/src/addressmap-inl.h:341-357 | The plain map loses that key and nothing else; the value removed is the one stored; found iff it was there. |
| `AddressTable.Table.AllocEntries` | deps/gperftools-2.4/src/addressmap-inl.h:322-331 | A new batch of entries goes on the free list, disjoint from every live entry. |
| `AddressTable.Table.Iterate` | deps/gperftools-2.4/src/addressmap-inl.h:407-420 | Visits the entry of every key exactly once and no other entry. |
| `AddressTable.Table.FindInside` | deps/gperftools-2.4/src/addressmap-inl.h:360-403 | For non-overlapping ranges: non-null iff some range that starts at or contains the key lies in a block within max_size of it, and then it is the only such range. Ends for every max_size. |
| `HeapProfile.FlagsAreIndependent` | deps/gperftools-2.4/src/heap-profile-table.h:190-219 | The live bit, the ignore bit and the bucket pointer packed in one word do not disturb one another. |
| `HeapProfile.ProfileTable.RecordAlloc` | deps/gperftools-2.4/src/heap-profile-table.cc:210-223 | The record replaces any earlier one at the address; the totals and the figures of its bucket, and of no other, go up by one allocation of that size; totals stay the sums over the buckets. What is counted in use exceeds what is recorded only by replaced records. |
| `HeapProfile.ProfileTable.RecordFree` | deps/gperftools-2.4/src/heap-profile-table.cc:225-234 | The record goes; totals and the recorded bucket change only for a recorded address, by one free of the recorded size; totals stay the sums over the buckets, and in use minus recorded stays what it was. |
| `HeapProfile.BalanceKept` | deps/gperftools-2.4/src/heap-profile-table.cc:210-234 | Counting alike in the totals and in one bucket keeps every total the sum over the buckets. |
| `HeapProfile.ProfileTable.FindInsideAlloc` | deps/gperftools-2.4/src/heap-profile-table.cc:253-261 | The one recorded object the pointer points at or into, with its size, found iff within reach. |
| `HeapProfile.ProfileTable.MarkAsLive` | deps/gperftools-2.4/src/heap-profile-table.cc:263-270 | True exactly for a recorded, not yet marked object, which becomes marked; nothing else changes. |
| `HeapProfile.ProfileTable.MarkAsIgnored` | deps/gperftools-2.4/src/heap-profile-table.cc:272-277 | Sets the ignore bit of a recorded object and nothing else. |
| `HeapProfile.ProfileTable.AddIfNonLive` | deps/gperftools-2.4/src/heap-profile-table.cc:419-430 | A marked object loses its mark; an unmarked one that is not in base is reported. |
| `HeapProfile.ProfileTable.NonLiveSnapshot` | deps/gperftools-2.4/src/heap-profile-table.cc:496-511 | Holds exactly the unmarked objects not in base, with their exact number and bytes, and leaves every mark clear and everything else as it was. |
| `HeapProfile.Snapshot.Add` | deps/gperftools-2.4/src/heap-profile-table.h:384-388 | Stores the object, over any at the same address, and counts it and its bytes. |
| `LeakChecker.HeapLeakChecker.NewHook` | deps/gperftools-2.4/src/heap-checker.cc:567-593 | Keeps every recorded object within the address bounds and the size maximum; records only while the checker is on, ignored iff asked. |
| `LeakChecker.HeapLeakChecker.DeleteHook` | deps/gperftools-2.4/src/heap-checker.cc:595-603 | Forgets the object while the checker is on; the bounds stay valid. |
| `LeakChecker.HeapLeakChecker.FollowWord` | deps/gperftools-2.4/src/heap-checker.cc:1448-1498 | One word: every object it resolves to is live afterwards, pushed iff newly marked, though the bounds test may have skipped the lookup. |
| `LeakChecker.BoundsLoseNothing` | deps/gperftools-2.4/src/heap-checker.cc:1453-1466 | No word outside the address bounds resolves to a recorded object. |
| `LeakChecker.UncappedSearch` | deps/gperftools-2.4/src/heap-checker.cc:1270-1279 | Without a cap below the largest object, a word resolves exactly when an object starts at it or contains it. |
| `LeakChecker.CapDoesNotBind` | deps/gperftools-2.4/src/heap-checker.cc:1270-1279 | With no cap, or one not below the largest recorded object, an object is reached exactly when a path of words that are the start of an object or lie inside it leads to it from a root. |
| `LeakChecker.LeaksByCover` | deps/gperftools-2.4/src/heap-checker.cc:1270-1279 | With any cap every object that starts within it of a word on a path is followed, and nothing beyond covering is. |
| `LeakChecker.HeapLeakChecker.ScanPiece` | deps/gperftools-2.4/src/heap-checker.cc:1409-1499 | Every aligned word of the piece is followed, and the counts of newly marked objects and their bytes are exact. |
| `LeakChecker.HeapLeakChecker.IgnoreLiveObjectsLocked` | deps/gperftools-2.4/src/heap-checker.cc:1392-1507 | Ends, and the live objects are exactly the least set with everything the roots flooded so far make live, closed under pointers; the totals grow by the number and the bytes newly live. |
| `LeakChecker.ReachIsLeast` | deps/gperftools-2.4/src/heap-checker.cc:1392-1507 | There is a least such set. |
| `LeakChecker.ReachIsPaths` | deps/gperftools-2.4/src/heap-checker.cc:1392-1507 | It consists of exactly the objects at the end of some pointer path from a root. |
| `LeakChecker.HeapLeakChecker.MakeIgnoredObjectsLive` | deps/gperftools-2.4/src/heap-checker.cc:727-734 | Every ignored object, with its recorded size, and nothing else joins the roots. |
| `LeakChecker.StaysNonOverlapping` | deps/gperftools-2.4/src/heap-checker.cc:584-589 | Recording a block apart from the others keeps recorded ranges from overlapping, as FindInside needs. |
| `LeakChecker.HeapLeakChecker.FindLeaks` | deps/gperftools-2.4/src/heap-checker.cc:1769-1770 | Floods from one root group after another and from the ignored objects, then the snapshot: exactly the recorded objects no pointer path from any root reaches and that are not in base, none of them ignored, with their number and bytes; every mark clear again. Whatever the cap, no object is reported that a path of words at or inside objects, within the cap of their starts, reaches; and every one that no such path at all reaches is. |
| `LeakChecker.IgnoredIsReported` | deps/gperftools-2.4/src/heap-profile-table.h:173-178 | An ignored, unmarked object is in the snapshot, unlike what the header comment says. |
| `LeakChecker.IgnoredReportedIff` | deps/gperftools-2.4/src/heap-profile-table.cc:419-430 | No ignored object is reported exactly when each is reached from a root or in base. |
| `LeakChecker.IgnoredStayOut` | deps/gperftools-2.4/src/heap-checker.cc:1126-1131 | Ignored objects pushed as roots stay out of the report. |
| `LogRuns.BanksConserved` | logger.h:2735-2744 | In every reachable state each bank is in exactly one of avail, current, write-out, in flight, callback queue, user hands or lost; only the default target with a callback can have lost one. |
| `LogRuns.FailuresUnreachable` | logger.h:3049-3082 | The full-queue and can't-put-back branches and the unref assertion are never reached, for any targets and any run. |
| `LogRuns.OnlyWholeMessages` | logger.h:2536-2591 | Bytes passed to flush, then write-out, then current, concatenate to whole rendered messages, an in-order subsequence of those written; complete lines when every message ends its line; banks keep within their space when prefixes fit 128 bytes. |
| `LogRuns.WrittenIsOffered` | logger.h:3084-3116 | The written messages are those offered while the target was enabled and that are not huge, in order. |
| `LogRuns.TimerRunsForData` | logger.h:636-657 | needGreaseThread covers all non-empty current, queued and in-flight banks and outstanding overflow writes over all targets, and the flush timer runs whenever there is any. |
| `LogKeepAlive.NeedIsExact` | logger.h:636-657 | In every reachable state needGreaseThread is the data not yet written out plus the references that went astray: one for each rotation that throws data away, each write of nothing into an empty bank, each overflow write not tracked to its end. |
| `LogKeepAlive.TimerStopsIff` | logger.h:647-657 | The flush timer stops exactly when nothing is left to write out and no reference has gone astray. |
| `LogKeepAlive.WriteWeighs` | logger.h:3125-3155 | What a write adds to the counter and to the data to be written out, exactly. |
| `LogCalls.CompletedBankGoes` | logger.h:2980-3004 | In every run a bank whose write completes waits for its callback, behind the others, exactly when a callback is set and wanted and fewer than ten wait; else it is cleared and available. It had data, and one reference goes. |
| `LogCalls.DeliveredBankGoes` | logger.cc:850-867 | The callback run next is the one that waited longest; its bank goes to the user of its own target. |
| `LogCalls.ReturnedBankGoes` | logger.cc:838-848 | A buffer given back to a registered target is cleared and available again. |
| `LogCalls.OverflowGoes` | logger.h:3170-3210 | An overflow write takes a reference; where its end is not tracked, its callback waits at once, exactly when one is set and fewer than ten wait. |
| `LogCalls.OverflowDoneGoes` | logger.h:3006-3024 | At its end it gives the reference up, and its callback waits exactly when one is set and fewer than ten wait. |
| `LogRuns.DefaultTargetLosesBank` | logger.cc:838-848 | A buffer given back to the default target is lost, since only registered targets are looked up. |
| `LogRuns.DefaultTargetHandsOut` | logger.cc:850-867 | A run in which the default target does hand out a buffer. |
| `LogBanks.RenderedIsLine` | logger.h:2536-2555 | What write leaves in a bank is header, message, footer and delimiter exactly when the message or the footer is non-empty or there is no delimiter. |
| `LogBanks.EmptyMessageHasNoDelimiter` | logger.h:2536-2555 | An empty message without footer runs into the next line. |
| `LogBanks.CopyIsRendered` | logger.h:3128-3136 | The three copyIn calls append exactly the rendered message. |
| `LogBanks.CopiesStayInside` | logger.h:2536-2555 | With room for the message no copy meets the length assertion or the over-full branch of copyIn, or writes past the space. |
| `LogBanks.FreshBankFits` | logger.h:3099-3155 | A message that is not huge fits a bank just rotated in exactly when header, footer and delimiter fit the space beside its text; 128 bytes always do. |
| `LogBankSteps.RotateKeeps` | logger.h:3049-3082 | Rotation keeps all invariants of a target and needs no new reference. |
| `LogBankSteps.WriteKeeps` | logger.h:3084-3164 | So does write, whose references cover the bank it starts to fill. |
| `LogBankSteps.MessageKept` | logger.h:3125-3162 | A message that is not huge goes into the current bank exactly when that text, header, message, footer and delimiter together are at most bankSize, or there is nothing to write; else into the next bank exactly when the current one has data, another is available and the command queue has room; else exactly the new message is lost, with the current bank's when no bank is available. The resulting text is stated. |
| `LogBankSteps.FitsIff` | logger.h:2583-2591 | What is compared with remain, as plain arithmetic on lengths. |
| `LogBankSteps.FlushKeeps` | logger.h:3213-3223 | So does handing a bank to flush. |
| `LogBankSteps.CompleteKeeps` | logger.h:2980-3004 | Completion moves the bank to the callback queue or back to the available ones; it always had data, so exactly one reference is dropped. |
| `LogBankSteps.DeliverKeeps` | logger.cc:804-813 | Delivery moves the bank at the head of the queue to the user. |
| `LogBankSteps.ReturnKeeps` | logger.cc:838-848 | A returned buffer is available again iff the target is registered. |
| `LogBankSteps.NewTargetInv` | logger.cc:560-586 | A new target holds its banks once each and satisfies the invariants. |
| `LogTargets.LogTarget.constructor` | logger.cc:560-586 | Builds that target. |
| `LogTargets.LogTarget.Rotate` | logger.h:3049-3082 | The new state is that of the step; with conserved banks it succeeds iff the current bank has data and another is available. |
| `LogTargets.LogTarget.Write` | logger.h:3084-3164 | The message goes whole into the current bank exactly when the lengths add up to at most the bank size, into the one rotated in, or nowhere; references taken cover the new data; a huge message is passed on whole as an overflow request, and a rotated bank asks to be flushed, iff the command queue has room. |
| `LogTargets.LogTarget.FlushAll` | logger.h:3213-3223 | Every queued bank goes to flush in order and nothing kept is lost. |
| `LogTargets.LogTarget.ReturnBuffer` | logger.h:2980-3004 | Unreferences once, then queues for the callback iff one is wanted and there is room, else clears and makes available. |
| `LogTargets.LogTarget.FinalizeCallback` | logger.h:2926-2932 | Always finds room. |
| `LogTargets.GreaseLogger.RefGreaseInGrease` | logger.h:636-645 | Counts up and starts the timer at zero. |
| `LogTargets.GreaseLogger.UnrefGreaseInGrease` | logger.h:647-657 | Counts down and stops the timer at zero. |
| `FilterRouting.FilterTable.Route` | logger.cc:196-258 | Unless it scans a full list, writes exactly what a plain scan of the rules does, in order; it runs off the end exactly when the list is full and some filter in it has the level. |
| `FilterRouting.FilterTable.Sift` | logger.cc:71-126 | Logs unless the level's bits meet the filter-out mask, or no rule matches and the default is to filter out; caches the one list of the most specific key with rules. |
| `FilterRouting.FilterTable.AddFilter` | logger.h:4072-4103 | The rule joins the others unless its list holds 16; it starts out enabled unless an empty slot of its list was disabled before. |
| `FilterRouting.FilterTable.SetDisabled` | grease_lib.cc:1037-1060 | Sets the flag of the filter with that key and id; with id 0 it sets that of the first empty slot, which the next filter added inherits. |
| `FilterRouting.AddToList` | logger.h:800-811 | The first empty slot takes the filter and the bloom its level. |
| `FilterRouting.FindInList` | logger.h:813-823 | Finds the filter with that id iff present; id 0 finds the first empty slot. |
| `FilterRouting.ScanList` | logger.cc:209-243 | The writes of the list in order and whether any filter took the message. |
| `FilterRouting.IsIgnored` | logger.cc:214-226 | True iff the ignore list names the target before its first 0. |
| `FilterRouting.GetHashes` | logger.h:4060-4064 | The masked hashes are those of the origin alone and of the tag alone. |
| `FilterRouting.HashInjective` | logger.h:4055-4058 | The combined hash determines tag and origin. |
| `FilterRouting.BloomMeets` | logger.h:797-799 | The bloom meets a level exactly when some filter of the list does. |
| `FilterRouting.ReachesTarget` | logger.cc:213-239 | In the plain scan a registered target is written exactly when the level is not filtered out, some enabled filter of a best rule shares a bit with it and names that target, and the message does not ignore it; best means matching with no matching rule more specific. |
| `FilterRouting.ReachesDefault` | logger.cc:227-231 | The same for the default target, when there is one. |
| `FilterRouting.BestKeyIsBest` | logger.cc:71-126 | The probes find the key of a rule exactly when it matches and no matching rule is more specific, an origin counting more than a tag; none exactly when no rule matches. |
| `FilterRouting.OverrunIff` | logger.cc:209-243 | The scan runs off its list exactly when the level is not filtered out, sixteen rules share the best key and one of them, enabled or not, has the level. |
| `LevelMasks.MeetsIs` | logger.cc:213-213 | A mask has a level exactly when they share a bit. |
| `FilterRouting.DefaultFilterUsed` | logger.cc:246-248 | The default filter is used exactly when the level is not filtered out, there is a default target and no best rule sends the message anywhere; where no rule matches, also the default must not be to filter out. |
| `FreeRing.FreeQueue.Push` | deps/gperftools-2.4/src/debugallocation.cc:176-179 | Appends to the queue. |
| `FreeRing.FreeQueue.Pop` | deps/gperftools-2.4/src/debugallocation.cc:181-186 | Removes the oldest entry. |
| `FreeRing.FreeQueue.Full` | deps/gperftools-2.4/src/debugallocation.cc:172-174 | True exactly at 1023 entries. |
| `FreeRing.FreeQueue.Size` | deps/gperftools-2.4/src/debugallocation.cc:188-190 | The number of entries, across the wrap-around. |
| `FreeRing.DrainedIsLeast` | deps/gperftools-2.4/src/debugallocation.cc:596-617 | The number drained is the least that brings the rest within the limit and leaves room. |
| `FreeRing.DrainedIs` | deps/gperftools-2.4/src/debugallocation.cc:596-617 | That number, in plain sizes: the least n after which the blocks left, with 160 bytes for each, are within the limit and fewer than 1023. |
| `FreeRing.SumIs` | deps/gperftools-2.4/src/debugallocation.cc:590-592 | The accounted size of a queue is the sizes of its blocks and 160 bytes for every entry. |
| `FreeRing.DebugAllocator.ProcessFreeQueue` | deps/gperftools-2.4/src/debugallocation.cc:579-624 | Alone: the block joins the queue and exactly that many of the oldest are freed, oldest first. |
| `FreeRingRuns.QueueAccounted` | deps/gperftools-2.4/src/debugallocation.cc:579-624 | Over every interleaving: free_queue_size_ is the sum of the queued sizes plus 160 bytes an entry, there are at most 1023 entries and fewer whenever the lock is free, no check fails, entries are popped in push order. |
| `FreeRingRuns.LeavesWithinLimit` | deps/gperftools-2.4/src/debugallocation.cc:596-618 | In every run a caller that holds the lock leaves exactly when the queued sizes plus 160 bytes each are within its limit and there are fewer than 1023. |
| `FreeRingRuns.PopsTheOldest` | deps/gperftools-2.4/src/debugallocation.cc:596-617 | Otherwise it takes the oldest block, and drops the lock to free its blocks exactly when it has four. |
| `FreeRingRuns.AloneIsProcess` | deps/gperftools-2.4/src/debugallocation.cc:579-624 | From any reachable state with the lock free, a caller nobody interrupts does what the plain ProcessFreeQueue does: same queue, same blocks freed in the same order. |
| `FreeRingRuns.NoDoubleFree` | deps/gperftools-2.4/src/debugallocation.cc:609-623 | No block is freed twice or before it was popped; with all batches empty exactly the popped ones have been freed. |
| `FreeRingRuns.FreesInOrder` | deps/gperftools-2.4/src/debugallocation.cc:620-623 | Every caller frees in push order. |
| `FreeRingRuns.FreedInPushOrder` | deps/gperftools-2.4/src/debugallocation.cc:596-623 | All frees together are in push order in every run in which no two callers hold popped entries at once. |
| `FreeRingRuns.OverlapCanSwap` | deps/gperftools-2.4/src/debugallocation.cc:605-623 | From any state in which two callers do, the run can go on so that blocks are freed out of push order. |
| `FreeRingRuns.SwappedFrees` | deps/gperftools-2.4/src/debugallocation.cc:605-623 | Such a run: two callers, the second block freed first. |
| `HookList.HookList.Add` | deps/gperftools-2.4/src/malloc_hook.cc:168-189 | The value goes into the first free normal slot, failing iff it is 0 or there is none; priv_end is again one past the last hook. |
| `HookList.HookList.FixupPrivEndLocked` | deps/gperftools-2.4/src/malloc_hook.cc:192-199 | priv_end goes back to one past the last hook. |
| `HookList.HookList.Remove` | deps/gperftools-2.4/src/malloc_hook.cc:202-219 | Empties the first slot with the value, the singular one included; fails iff it is 0 or not there. |
| `HookList.HookList.Traverse` | deps/gperftools-2.4/src/malloc_hook.cc:222-234 | With no writer about: the first n hooks in slot order. |
| `HookList.HooksAreSlots` | deps/gperftools-2.4/src/malloc_hook.cc:222-234 | The hooks of a list are the contents of its slots that are not 0, each slot once, in slot order. |
| `HookList.HookList.ExchangeSingular` | deps/gperftools-2.4/src/malloc_hook.cc:237-249 | Swaps the last slot and keeps priv_end exact. |
| `HookList.SingularLeftOut` | deps/gperftools-2.4/src/malloc_hook.cc:476-482 | Invoking hooks, with room for 7, leaves one out exactly when all 8 slots are taken; then the 7 normal hooks are invoked and the singular one is not. |
| `HookRuns.EndIsExact` | deps/gperftools-2.4/src/malloc_hook.cc:167-249 | Over every interleaving of loads and stores, priv_end is one past the last hook whenever the lock is free. |
| `HookRuns.TraversalIsComplete` | deps/gperftools-2.4/src/malloc_hook.cc:222-234 | Of the normal hooks that stay during it, a concurrent traversal returns exactly those in slots below the priv_end it read, which has every hook whose Add had returned before; each slot at most once and in order, and only values in the list meanwhile. |
| `HookRuns.HookBeingAddedIsMissed` | deps/gperftools-2.4/src/malloc_hook.cc:183-187 | A hook whose Add is between its two stores can be there all the while and be missed. |
| `HookRuns.AddIsTwoStores` | deps/gperftools-2.4/src/malloc_hook.cc:183-188 | The two stores of the interleaved Add put the value into the first free normal slot, with priv_end exact again, or change nothing when it is 0 or there is none. |
| `HookRuns.RemoveIsTwoStores` | deps/gperftools-2.4/src/malloc_hook.cc:202-219 | Those of Remove empty the first slot that held the value, or change nothing when there is none. |
| `HookRuns.ExchangeIsTwoStores` | deps/gperftools-2.4/src/malloc_hook.cc:237-249 | Those of ExchangeSingular put the value into the last slot. |
| `FileRotation.FileTarget.CheckFiles` | logger.h:3817-3874 | The list is the longest unbroken range of numbers on disk from 1, oldest first; rotation is due iff the current file is over its limit or all together are over theirs. |
| `FileRotation.FileTarget.RotateFiles` | logger.h:3748-3815 | No rename hits an existing file; survivors move up by one and the current file becomes number 1; at most max_files rotated files remain, only the oldest gone. Out of names exactly with nine files and no limit below ten. |
| `FileRotation.FileTarget.RotateMany` | logger.h:3748-3815 | From any files 1 to k, after any number of rotations the files are the newest texts, newest first, and the list stays contiguous. |
| `FileRotation.KeptNewest` | logger.h:3748-3815 | Those are the first max_files of the texts rotated, newest first, followed by the earlier files. |
| `FrameCodec.DecodeEncode` | logger.h:2386-2480 | Frames packed into one buffer give one logP call each, in order, with the same metadata and bytes; only a frame without a message gives none. |
| `FrameCodec.AllArrive` | grease_client.c:326-343 | Sendable frames with messages all arrive, each once, in order; logP accepts exactly those of up to 65535 bytes. |
| `FrameCodec.CutShort` | logger.h:2445-2460 | A buffer cut short loses the frame it cuts and those after it, and nothing else. |
| `FrameCodec.DecodeIsExact` | logger.h:2386-2480 | Every byte string is a sequence of entries, pings and eight-byte pieces that are neither, and an incomplete rest; decoding logs exactly the entries longer than their metadata and answers exactly the pings, in order. |
| `FrameCodec.DecodeItems` | logger.h:2386-2480 | And the other way round: any such pieces, put together, are decoded to just that. |
| `FrameCodec.FrameIsEntry` | grease_client.c:326-343 | What the client sends is an entry of metadata and message, byte for byte. |
| `FrameCodec.Receive` | logger.h:2371-2480 | The loop ends on every byte string that fits one buffer, and its actions are those of the decoding function. |
| `FrameCodec.BytesRoundTrip` | grease_client.h:38-39 | A length written into a header is read back. |

## Left out

- The page heap and Span are modelled by contract: New gives fresh pages or nothing, Delete takes them back. Their own code is not part of this model.
- CentralLinks.SpanLists.RemoveRange: the span lists of one central list under its lock; the cached chain and the retry after Populate are in `CentralChains.ReturnsLinked`, over runs.
- CentralLinks.SpanLists.ReleaseToSpans: the call to the page heap is a step of the runs, not of this class.
- EvictRandomSizeClass's counter and the unlocked reads at the start of ShrinkCache: any victim, or none, may be chosen at any time, which allows more runs than the code has.
- Memory ordering weaker than sequential consistency, in HookList and in the unlocked reads of the central lists.
- SizeMap.ComputeClasses: limits of -4 and below, with which the source never returns.
- SizeMap: only the constants of the default build; the tables grow as sequences, so a write past kNumClasses before the class-count check is not modelled.
- LgFloor and the alignment code are modelled on unbounded integers within the 32-bit range the source allows.
- Addresses are below 2^64 and recorded blocks end below it; AddressMap's and the allocator's own memory never runs out.
- The stack walking, /proc/self/maps parsing and thread listing that produce the leak checker's roots: roots are parameters.
- LeakChecker.HeapLeakChecker.IgnoreLiveObjectsLocked: roots that must be on the heap have their recorded size, as the FATAL check at heap-checker.cc:1117 enforces for ignored objects.
- libuv, sockets, file descriptors and file system failures: writes are submit and complete events; renames and unlinks succeed, except that the current file may be missing.
- LogTargets.LogTarget.ReturnBuffer: the asynchronous form; the synchronous branch belongs to the paths on the next line.
- The synchronous flush and shutdown paths, which do not follow the counter discipline of the asynchronous ones.
- JSON escaping, and the header and footer formats, which are parameters here.
- The order of overflow messages relative to banked ones, and their reference counts beyond the keep-alive counter.
- LogRuns: each call of write, rotate and the rest is one event; writers of one target on several threads at once are not modelled. The command queue is a yes-or-no answer to whether there was room.
- Metadata whose hashes are already cached, which sift accepts without looking at the table.
- Wrap-around of filter ids and of the keep-alive counter.
- FrameCodec: one receive buffer; the branches for messages spread over several buffers, and the ping handshake beyond its answer.
- `_grease_logToRaw`, whose length field differs from what the sink decodes; PipeSink, the kernel-log and syslog sinks.
- FreeRing: an entry has 160 bytes, as where pointers have eight; the content check for dangling writes is not modelled; the limit is the flag after its conversion to an unsigned number.
- V8 bindings, label and error tables, libc overrides, symbolization, profile dumping and the twlib wrappers.
