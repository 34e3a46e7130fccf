# C-LOOK I/O scheduler queue

A Dafny model of the C-LOOK elevator in `clook-iosched.c`, a Linux block-layer
I/O scheduler. Each request queue owns one `clook_data`, which holds a single
intrusive list of pending requests. The elevator hooks change that list in
place:

- `clook_add_request` admits a request;
- `clook_dispatch` moves the head to the host's dispatch list;
- `clook_merged_requests` unlinks a request the host has absorbed into another;
- `clook_queue_empty`, `clook_former_request` and `clook_latter_request` answer queries;
- `clook_init_queue` and `clook_exit_queue` create and tear down the data.

Files:

- `ordered_queue.dfy` (module `OrderedQueue`): the values. It holds the request record
  (identity, first sector, end sector, direction; two records with the same identity are
  the same kernel request), the order the queue is meant to keep
  (non-decreasing end sector) and `InsertSorted`, a recursive reference definition of
  sorted admission. It also holds the splice and unlink operations on sequences and
  the lemmas about them.
- `clook_iosched.dfy` (module `ClookIosched`): the class `ClookData`. Its field `queue`
  is the kernel list as a `seq<Request>`. Its field `log` is the trace of the
  `[CLOOK] add` / `[CLOOK] dsp` messages. Three ghost counters record admissions,
  dispatches and merges. `Valid()` states that no request identity is queued twice and that
  admitted − (dispatched + merged) = |queue|.
- `scenarios.dfy` (module `ClookScenarios`): client methods checked from the contracts
  alone. They cover the sweep 50, 10, 90, 30 → 10, 30, 50, 90, the tie-break between
  equal end sectors, the teardown guard, two merges (one that grows the surviving
  request), and the same sweep through the appending code as written.

Admission is modelled twice:

- `AddAsWritten` is the code as written. The scan runs, its result is dropped and
  the request is appended.
- `AddSorted` is what the comment at line 74 announces and what the scan's cursor at
  lines 76-80 is computed for. It inserts at the scan's stopping point, so on an ordered
  queue a new request goes after queued requests with an equal end sector (FIFO
  tie-break). The file header
  (lines 8-14) describes a different, head-relative circular order, which no code
  implements and which is not modelled.

The comment at line 74 announces a sort, but line 81 appends; the gap is under
Findings. Teardown of a non-empty queue is a `BUG_ON` at line 137, which halts the
kernel. The model represents that halt as the `BugNonEmpty` outcome of `ExitQueue`, with
the queue untouched; `Freed` stands for the `kfree` at line 138.

The kernel reads a request's end sector live (`rq_end_sector` at line 77). The model
keeps one record per queued request and replaces it when the host reports a change, which
in this scheduler happens only through the merge hook: `MergedRequests` stores the `rq`
it is given, whose range the host has already grown, in place of the queued record with
the same identity.

## Model

| member | source | states |
|---|---|---|
| `OrderedQueue.InsertionPointUnique` | clook-iosched.c:76-80 | at most one index satisfies the scan's stopping condition, so the scan's answer is determined |
| `OrderedQueue.SpliceIsInsertSorted` | clook-iosched.c:74-80 | linking the new request in at the scan's stopping point equals the reference sorted admission `InsertSorted` |
| `OrderedQueue.InsertSortedMultiset` | clook-iosched.c:81 | sorted admission grows the queue by one, and its multiset becomes old + {rq} |
| `OrderedQueue.InsertSortedMembers` | clook-iosched.c:81 | after sorted admission, a request is queued iff it was queued before or is the new one |
| `OrderedQueue.InsertSortedKeepsOrder` | clook-iosched.c:74-80 | sorted admission into a queue ordered by end sector leaves it ordered |
| `OrderedQueue.InsertSortedBefore` | clook-iosched.c:76-80 | on any queue, ordered or not, after sorted admission every element before the new request has end sector ≤ its key |
| `OrderedQueue.InsertSortedAfter` | clook-iosched.c:76-80 | on an ordered queue, after sorted admission every element after the new request has a strictly greater end sector, so no earlier request with an equal key ends up behind it |
| `OrderedQueue.InsertSortedFifo` | clook-iosched.c:76-80 | FIFO tie-break: on an ordered queue, a queued request with the same end sector as the new one stays queued and sits ahead of it, because the scan stops only at a strictly greater key |
| `OrderedQueue.AppendAgreesIff` | clook-iosched.c:76-81 | appending gives the same queue as sorted admission iff the new key is ≥ every queued key |
| `OrderedQueue.AppendSortedIff` | clook-iosched.c:81 | an appended queue is ordered iff the old queue was ordered and the new key is ≥ its last key |
| `OrderedQueue.InsertAtDistinct` | clook-iosched.c:81 | linking in a request whose identity is not queued keeps every identity queued at most once |
| `OrderedQueue.RemoveAtMultiset` | clook-iosched.c:36-40 | unlinking one element removes exactly that element from the multiset |
| `OrderedQueue.RemoveAtSorted` | clook-iosched.c:36-40 | unlinking one element keeps the others in their relative order, so an ordered queue stays ordered |
| `OrderedQueue.RemoveAtDistinct` | clook-iosched.c:36-40 | unlinking from a duplicate-free queue keeps it duplicate-free and leaves the unlinked identity absent |
| `OrderedQueue.UnlinkProperties` | clook-iosched.c:39 | on a duplicate-free queue, `list_del_init` by identity removes exactly the element with that identity wherever it sits, is a no-op when it is not queued, keeps every other element and keeps the order |
| `OrderedQueue.RefreshProperties` | clook-iosched.c:36-40 | replacing the record of a queued request by its current state keeps the queue duplicate-free, puts the new record in the queue, and keeps the order when the end sector did not change |
| `OrderedQueue.PopHead` | clook-iosched.c:47-51 | taking the head off a duplicate-free queue leaves its identity unqueued and removes exactly it from the multiset; on an ordered queue the head has the smallest end sector and the rest stays ordered |
| `OrderedQueue.HeadIsMinimum` | clook-iosched.c:47-51 | on an ordered queue the head has the smallest end sector of all queued requests |
| `OrderedQueue.DistinctIndex` | clook-iosched.c:107-119 | in a duplicate-free queue a request identity has exactly one position, the one `IndexOf` finds |
| `ClookIosched.Direction` | clook-iosched.c:60-61 | the direction character is 'W' exactly for writes and 'R' exactly for reads |
| `ClookIosched.ClookData.constructor` | clook-iosched.c:129 | a new elevator data has an empty queue, an empty trace and zero counters, and is valid |
| `ClookIosched.ClookData.FindInsertionPoint` | clook-iosched.c:76-80 | the scan returns the least index whose end sector is > the key, or the length if none; every element before it has end sector ≤ the key |
| `ClookIosched.ClookData.AddSorted` | clook-iosched.c:70-92 | the new queue is `InsertSorted(old queue, rq)`, and the multiset gains exactly rq. Order and distinct identities are kept, admitted grows by one, and one `add` event is logged |
| `ClookIosched.ClookData.AddAsWritten` | clook-iosched.c:70-92 | the new queue is old + [rq]. It is ordered iff the old queue was ordered and the new key is ≥ the old last key. Distinctness and conservation are kept, and one `add` event is logged |
| `ClookIosched.AsWrittenCounterexample` | clook-iosched.c:76-81 | for queue [end 10] and a new request ending at 5, appending breaks the order, while sorted admission puts the new request first and stays ordered |
| `ClookIosched.ClookData.Dispatch` | clook-iosched.c:42-68 | empty queue: returns 0 and changes nothing. Otherwise: returns 1, hands out exactly the old head (no longer queued, and exactly it leaves the multiset), leaves the old tail in order, and logs one `dsp` event. On an ordered queue the head has the smallest end sector, and the order is kept |
| `ClookIosched.ClookData.MergedRequests` | clook-iosched.c:36-40 | `next` is no longer queued. The record with `rq`'s identity becomes the given `rq`, which stays queued. If `next` was at position i, the queue becomes that refreshed queue without position i and the merge count grows by one; if it was not queued, only the refresh happens. The order is kept whenever the refreshed queue is ordered, in particular when `rq`'s end sector did not change |
| `ClookIosched.MergeEffect` | clook-iosched.c:36-40 | the merge's effect on the sequence: duplicate-free, `next` absent, removal at `next`'s position, `rq` kept, order kept under the same conditions |
| `ClookIosched.ClookData.QueueEmpty` | clook-iosched.c:95-100 | true iff no request is pending |
| `ClookIosched.ClookData.FormerRequest` | clook-iosched.c:102-110 | for rq whose identity is queued at position i: none when i = 0, otherwise the element at i−1 |
| `ClookIosched.ClookData.LatterRequest` | clook-iosched.c:112-120 | for rq whose identity is queued at position i: none when rq is last, otherwise the element at i+1 |
| `ClookIosched.ClookData.ExitQueue` | clook-iosched.c:133-139 | teardown succeeds iff the queue is empty. A non-empty queue is the fatal BUG_ON outcome, and the queue is not touched |
| `ClookIosched.InitQueue` | clook-iosched.c:122-131 | allocation failure yields null. Success yields a fresh, valid data with an empty queue |
| `ClookScenarios.SweepOrder` | clook-iosched.c:74-80 | sorted admission of end sectors 50, 10, 90, 30 queues them as 10, 30, 50, 90 |
| `ClookScenarios.SweepAdmit` | clook-iosched.c:70-81 | the same four admissions through `AddSorted` leave the queue in the order 10, 30, 50, 90 |
| `ClookScenarios.AsWrittenAdmit` | clook-iosched.c:76-81 | the same four admissions through the appending code as written leave the queue exactly in arrival order 50, 10, 90, 30, which is out of order |
| `ClookScenarios.MergeOrder` | clook-iosched.c:36-40 | with end sectors 10, 20, 30 admitted in order, merging the middle request into the first leaves the outer two adjacent |
| `ClookScenarios.MergeAdmit` | clook-iosched.c:70-81 | admitting end sectors 10, 20, 30 through `AddSorted` queues them in that order |
| `ClookScenarios.GrownMergeOrder` | clook-iosched.c:36-40 | after a merge grows the first request's end from 10 to 20, a new request ending at 15 is admitted before it |

## Left out

- Registration, the elevator ops table and module init/exit (clook-iosched.c:141-174) are host plumbing with no logic.
- `kmalloc_node` and `kfree` are allocation. Success or failure of allocation is the `allocOk` parameter of `InitQueue`. Freeing is the `Freed` outcome.
- `printk` is modelled as the `log` trace of (kind, direction character, first sector). The kernel's formatting of the line is not modelled.
- `elv_dispatch_sort` is the host's own placement into its dispatch list. The model hands the popped request out as `Dispatch`'s `out` parameter and does not model the host list.
- `rq_end_sector`, `blk_rq_pos` and `rq_data_dir` are replaced by fields of the `Request` value. `rq_end_sector` is modelled as a natural number without the kernel's `sector_t` width.
- Request identity (the kernel pointer) is the `id` field: distinctness, membership, the neighbour queries and the merge all compare identities. The `list_head` pointer mechanics are replaced by a sequence, so aliasing between lists is not modelled.
- Changes the host makes to a queued request without calling a hook of this scheduler (for example a bio merged into it, which this scheduler has no hook for) are not modelled: the queued record keeps the fields it was last given.
- `MergedRequests`: keeps the queue ordered only when the queue with `rq`'s new record is ordered (always so when `rq`'s end sector did not change). A merge that grows `rq` past the end sector of a request queued after it leaves the queue out of order, as the kernel list would be; the source does not re-sort.
- `AddSorted` and `AddAsWritten` require the new request's identity not to be queued already. Linking a request that is already on the list corrupts the kernel list, so the host never does this.
- `FormerRequest` and `LatterRequest` require `rq` to be queued. The kernel reads `rq`'s own list links, which only mean something for a queued request.
- The head-relative circular ordering in the file header (head at 5 giving [7, 10, 1, 2, 4]) is not modelled. No head position is stored or used anywhere in the code.
- Locking and concurrency are the host's job.

## Findings

| source | as written | input that shows it | evidently intended | confidence | as-written member | corrected member |
|---|---|---|---|---|---|---|
| clook-iosched.c:76-81 | the scan finds the first queued request whose end sector is greater than the new one, then its cursor is ignored and `list_add_tail` always appends | queue holds one request ending at sector 10, and a request ending at sector 5 is added: the queue becomes [10, 5] and the later, lower request is dispatched second | insert before the element the scan stopped at (the comment at line 74 and the cursor the scan computes), keeping the queue ordered by end sector with FIFO ties; the file header at lines 8-14 describes a different, head-relative order that nothing implements | high; not executed | `ClookIosched.AsWrittenCounterexample` (with `ClookIosched.ClookData.AddAsWritten`) | `ClookIosched.ClookData.AddSorted` |
