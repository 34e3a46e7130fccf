/**
 * The C-LOOK elevator of clook-iosched.c: one `ClookData` per request queue,
 * holding the pending list `queue` that the elevator hooks update in place.
 * The intrusive kernel list is a sequence of request records, one per
 * queued request identity; `log` is the
 * trace of the `[CLOOK] add` / `[CLOOK] dsp` messages, and three ghost
 * counters record how many requests were ever admitted, dispatched and merged
 * away.
 */
module ClookIosched {
  import opened OrderedQueue

  datatype EventKind = Add | Dsp

  /** One diagnostic line: its kind, 'R' or 'W', and the request's first sector. */
  datatype Event = Event(kind: EventKind, rw: char, sector: nat)

  /** The direction character: 'W' for a write, 'R' otherwise. */
  function Direction(rq: Request): (c: char)
    ensures c == 'W' <==> rq.isWrite
    ensures c == 'R' <==> !rq.isWrite
  {
    if rq.isWrite then 'W' else 'R'
  }

  /** Outcome of tearing down the elevator data. */
  datatype ExitOutcome = Freed | BugNonEmpty

  class ClookData {
    var queue: seq<Request>
    var log: seq<Event>
    ghost var admitted: nat
    ghost var dispatched: nat
    ghost var merged: nat

    /** Each request is linked at most once, and the conservation law holds:
        admitted minus (dispatched plus merged) is the queue's length. */
    ghost predicate Valid()
      reads this
    {
      Distinct(queue) && admitted == |queue| + dispatched + merged
    }

    /** INIT_LIST_HEAD: a fresh elevator starts with an empty queue. */
    constructor ()
      ensures Valid() && queue == [] && log == []
      ensures admitted == 0 && dispatched == 0 && merged == 0
    {
      queue := [];
      log := [];
      admitted, dispatched, merged := 0, 0, 0;
    }

    /** The `list_for_each` scan of clook_add_request: walks the queue from the
        head and stops at the first element whose end sector is strictly
        greater than `key`, or at the end. */
    method FindInsertionPoint(key: nat) returns (k: nat)
      ensures IsInsertionPoint(queue, key, k)
    {
      k := 0;
      while k < |queue| && queue[k].endSector <= key
        invariant k <= |queue|
        invariant forall j :: 0 <= j < k ==> queue[j].endSector <= key
      {
        k := k + 1;
      }
    }

    /** clook_add_request as the comment at line 74 and the scan's cursor
        intend it: the new request is linked in before the element the scan
        stopped at. (The file header describes a different, head-relative
        circular order, which no code implements.) */
    method AddSorted(rq: Request)
      requires Valid() && rq.id !in Ids(queue)
      modifies this
      ensures Valid()
      ensures queue == InsertSorted(old(queue), rq)
      ensures multiset(queue) == multiset(old(queue)) + multiset{rq}
      ensures old(Sorted(queue)) ==> Sorted(queue)
      ensures admitted == old(admitted) + 1
      ensures dispatched == old(dispatched) && merged == old(merged)
      ensures log == old(log) + [Event(Add, Direction(rq), rq.sector)]
    {
      var k := FindInsertionPoint(rq.endSector);
      SpliceIsInsertSorted(queue, rq, k);
      InsertAtDistinct(queue, k, rq);
      InsertSortedMultiset(queue, rq);
      if Sorted(queue) {
        InsertSortedKeepsOrder(queue, rq);
      }
      queue := InsertAt(queue, k, rq);
      admitted := admitted + 1;
      log := log + [Event(Add, Direction(rq), rq.sector)];
    }

    /** clook_add_request as written: the scan runs, its result is dropped, and
        `list_add_tail` appends. Order survives only when the new key is at
        least the last queued key. */
    method AddAsWritten(rq: Request)
      requires Valid() && rq.id !in Ids(queue)
      modifies this
      ensures Valid()
      ensures queue == old(queue) + [rq]
      ensures Sorted(queue) <==>
        old(Sorted(queue)) && (old(queue) == [] || old(queue)[|old(queue)| - 1].endSector <= rq.endSector)
      ensures admitted == old(admitted) + 1
      ensures dispatched == old(dispatched) && merged == old(merged)
      ensures log == old(log) + [Event(Add, Direction(rq), rq.sector)]
    {
      var _ := FindInsertionPoint(rq.endSector);
      AppendSortedIff(queue, rq);
      InsertAtDistinct(queue, |queue|, rq);
      assert InsertAt(queue, |queue|, rq) == queue + [rq];
      queue := queue + [rq];
      admitted := admitted + 1;
      log := log + [Event(Add, Direction(rq), rq.sector)];
    }

    /** clook_dispatch: on a non-empty queue the head is unlinked, handed to
        the host (`out`, standing for elv_dispatch_sort) and 1 is returned; on
        an empty queue nothing changes and 0 is returned. `force` does not
        affect the choice. */
    method Dispatch(force: bool) returns (n: int, out: Option<Request>)
      requires Valid()
      modifies this
      ensures Valid()
      ensures old(queue) == [] ==>
        n == 0 && out == None && queue == old(queue) && log == old(log) &&
        dispatched == old(dispatched)
      ensures old(queue) != [] ==>
        n == 1 && out == Some(old(queue)[0]) && queue == old(queue)[1..] &&
        out.value.id !in Ids(queue) &&
        multiset(old(queue)) == multiset(queue) + multiset{out.value} &&
        log == old(log) + [Event(Dsp, Direction(out.value), out.value.sector)] &&
        dispatched == old(dispatched) + 1
      ensures out.Some? && old(Sorted(queue)) ==>
        forall x :: x in queue ==> out.value.endSector <= x.endSector
      ensures old(Sorted(queue)) ==> Sorted(queue)
      ensures admitted == old(admitted) && merged == old(merged)
    {
      if queue != [] {
        var rq := queue[0];
        PopHead(queue);
        queue := queue[1..];
        dispatched := dispatched + 1;
        log := log + [Event(Dsp, Direction(rq), rq.sector)];
        return 1, Some(rq);
      }
      return 0, None;
    }

    /** clook_merged_requests: the host has absorbed `next` into `rq`, so the
        record passed as `rq` is its current state (typically a grown range)
        and takes the place of the queued record with its identity; `next` is
        unlinked and nothing else moves. Unlinking a request that is not queued
        (already self-linked) changes nothing. */
    method MergedRequests(rq: Request, next: Request)
      requires Valid()
      modifies this
      ensures Valid()
      ensures next.id !in Ids(queue)
      ensures forall i :: 0 <= i < |old(queue)| && old(queue)[i].id == next.id ==>
        queue == RemoveAt(Refresh(old(queue), rq), i) && merged == old(merged) + 1
      ensures next.id !in Ids(old(queue)) ==> queue == Refresh(old(queue), rq) && merged == old(merged)
      ensures rq.id != next.id && rq.id in Ids(old(queue)) ==> rq in queue
      ensures Sorted(Refresh(old(queue), rq)) ==> Sorted(queue)
      ensures (old(Sorted(queue)) &&
        forall i :: 0 <= i < |old(queue)| && old(queue)[i].id == rq.id ==> old(queue)[i].endSector == rq.endSector) ==>
        Sorted(queue)
      ensures admitted == old(admitted) && dispatched == old(dispatched) && log == old(log)
    {
      MergeEffect(queue, rq, next);
      if next.id in Ids(queue) {
        merged := merged + 1;
      }
      queue := Unlink(Refresh(queue, rq), next.id);
    }

    /** clook_queue_empty. */
    function QueueEmpty(): (empty: bool)
      reads this
      ensures empty <==> |queue| == 0
    {
      queue == []
    }

    /** clook_former_request: the element just before `rq`, or none when `rq`
        is at the head. */
    function FormerRequest(rq: Request): (r: Option<Request>)
      reads this
      requires Valid() && rq.id in Ids(queue)
      ensures forall i :: 0 <= i < |queue| && queue[i].id == rq.id ==>
        r == if i == 0 then None else Some(queue[i - 1])
    {
      var i := IndexOf(queue, rq.id);
      if i == 0 then None else Some(queue[i - 1])
    }

    /** clook_latter_request: the element just after `rq`, or none when `rq`
        is at the tail. */
    function LatterRequest(rq: Request): (r: Option<Request>)
      reads this
      requires Valid() && rq.id in Ids(queue)
      ensures forall i :: 0 <= i < |queue| && queue[i].id == rq.id ==>
        r == if i == |queue| - 1 then None else Some(queue[i + 1])
    {
      var i := IndexOf(queue, rq.id);
      if i == |queue| - 1 then None else Some(queue[i + 1])
    }

    /** clook_exit_queue: the data may be freed only with an empty queue; a
        non-empty queue is the BUG_ON, and the queue is left as it is. */
    method ExitQueue() returns (r: ExitOutcome)
      ensures r == Freed <==> queue == []
      ensures r == BugNonEmpty <==> queue != []
    {
      if queue != [] {
        return BugNonEmpty;
      }
      return Freed;
    }
  }

  /** What the merge hook does to the pending sequence, as one fact about
      `Unlink(Refresh(q, rq), next.id)`. */
  lemma MergeEffect(q: seq<Request>, rq: Request, next: Request)
    requires Distinct(q)
    ensures var r := Unlink(Refresh(q, rq), next.id);
      Distinct(r) && next.id !in Ids(r) &&
      (forall i :: 0 <= i < |q| && q[i].id == next.id ==> r == RemoveAt(Refresh(q, rq), i)) &&
      (next.id !in Ids(q) ==> r == Refresh(q, rq)) &&
      (rq.id != next.id && rq.id in Ids(q) ==> rq in r) &&
      (Sorted(Refresh(q, rq)) ==> Sorted(r)) &&
      (Sorted(q) && (forall i :: 0 <= i < |q| && q[i].id == rq.id ==> q[i].endSector == rq.endSector) ==>
        Sorted(r))
  {
    RefreshProperties(q, rq);
    var live := Refresh(q, rq);
    UnlinkProperties(live, next.id);
    assert Ids(live) == Ids(q);
    forall i | 0 <= i < |q| && q[i].id == next.id
      ensures live[i].id == next.id
    {
      assert Ids(live)[i] == Ids(q)[i];
    }
  }

  /** The gap between the two admissions: queue one request ending at
      sector 10, then add one ending at sector 5. Appending breaks the order
      (the later, lower request would be dispatched second), while sorted
      admission puts it first. */
  lemma AsWrittenCounterexample()
    ensures var s, rq := [Request(1, 2, 10, false)], Request(2, 0, 5, false);
      Sorted(s) && !Sorted(s + [rq]) &&
      InsertSorted(s, rq) == [rq] + s && Sorted(InsertSorted(s, rq))
  {
    var s, rq := [Request(1, 2, 10, false)], Request(2, 0, 5, false);
    AppendSortedIff(s, rq);
  }

  /** clook_init_queue: `allocOk` stands for the outcome of kmalloc_node.
      On failure nothing is created; otherwise the new data has an empty queue. */
  method InitQueue(allocOk: bool) returns (nd: ClookData?)
    ensures allocOk <==> nd != null
    ensures nd != null ==> fresh(nd) && nd.Valid() && nd.queue == [] && nd.log == []
  {
    if !allocOk {
      return null;
    }
    nd := new ClookData();
  }
}
