/**
 * Client scenarios of the C-LOOK elevator, verified from the contracts of
 * ClookData alone: the sweep order, the tie-break
 * between equal end sectors, the teardown guard, two merges, and what the appending
 * admission of the code as written does to the same sweep.
 */
module ClookScenarios {
  import opened OrderedQueue
  import opened ClookIosched

  /** A request with the given identity, end sector and direction; its first
      sector lies eight sectors below the end. */
  function Req(id: nat, endSector: nat, isWrite: bool): (r: Request)
    ensures r.id == id && r.endSector == endSector && r.isWrite == isWrite
  {
    Request(id, if endSector >= 8 then endSector - 8 else 0, endSector, isWrite)
  }

  /** Sorted admission of end sectors 50, 10, 90, 30, in that order. */
  lemma SweepOrder(a: Request, b: Request, c: Request, d: Request)
    requires a.endSector == 50 && b.endSector == 10 && c.endSector == 90 && d.endSector == 30
    ensures InsertSorted([a], b) == [b, a]
    ensures InsertSorted([b, a], c) == [b, a, c]
    ensures InsertSorted([b, a, c], d) == [b, d, a, c]
  {
    assert InsertSorted([a], c) == [a, c];
    assert [b, a][1..] == [a];
    assert [b, a, c][1..] == [a, c];
  }

  /** Admitting end sectors 50, 10, 90, 30 in that order queues them as
      10, 30, 50, 90. */
  method SweepAdmit() returns (nd: ClookData, a: Request, b: Request, c: Request, d: Request)
    ensures fresh(nd) && nd.Valid() && nd.queue == [b, d, a, c]
    ensures a.endSector == 50 && b.endSector == 10 && c.endSector == 90 && d.endSector == 30
  {
    nd := new ClookData();
    a, b, c, d := Req(1, 50, false), Req(2, 10, false), Req(3, 90, true), Req(4, 30, false);
    SweepOrder(a, b, c, d);
    nd.AddSorted(a);
    nd.AddSorted(b);
    nd.AddSorted(c);
    nd.AddSorted(d);
  }

  /** Dispatching after those admissions yields 10, 30, 50, 90: a late low
      request is served before earlier high ones, then the queue is empty. */
  method SweepScenario()
  {
    var nd, a, b, c, d := SweepAdmit();
    var n, out := nd.Dispatch(false);
    assert n == 1 && out == Some(b) && out.value.endSector == 10;
    n, out := nd.Dispatch(false);
    assert out == Some(d) && out.value.endSector == 30;
    n, out := nd.Dispatch(true);
    assert out == Some(a) && out.value.endSector == 50;
    n, out := nd.Dispatch(false);
    assert out == Some(c) && out.value.endSector == 90;
    n, out := nd.Dispatch(false);
    assert n == 0 && out == None && nd.QueueEmpty();
  }

  /** The same admissions through the appending code as written leave the
      queue in arrival order, out of order by end sector. */
  method AsWrittenAdmit() returns (nd: ClookData, a: Request, b: Request, c: Request, d: Request)
    ensures fresh(nd) && nd.Valid() && nd.queue == [a, b, c, d]
    ensures a.endSector == 50 && b.endSector == 10 && c.endSector == 90 && d.endSector == 30
    ensures !Sorted(nd.queue)
  {
    nd := new ClookData();
    a, b, c, d := Req(1, 50, false), Req(2, 10, false), Req(3, 90, true), Req(4, 30, false);
    nd.AddAsWritten(a);
    nd.AddAsWritten(b);
    nd.AddAsWritten(c);
    nd.AddAsWritten(d);
    assert nd.queue[0].endSector > nd.queue[1].endSector;
  }

  /** Dispatching after the appending admissions serves them in arrival
      order 50, 10, 90, 30, so 50 goes before 10 and 90 before 30. */
  method AsWrittenSweepScenario()
  {
    var nd, a, b, c, d := AsWrittenAdmit();
    var n, out := nd.Dispatch(false);
    assert out == Some(a) && out.value.endSector == 50;
    n, out := nd.Dispatch(false);
    assert out == Some(b) && out.value.endSector == 10;
    n, out := nd.Dispatch(false);
    assert out == Some(c) && out.value.endSector == 90;
    n, out := nd.Dispatch(false);
    assert out == Some(d) && out.value.endSector == 30;
  }

  /** Two requests with end sector 40, a write then a read, are dispatched in
      admission order. */
  method TieBreakScenario()
  {
    var nd := new ClookData();
    var w, r := Req(1, 40, true), Req(2, 40, false);
    nd.AddSorted(w);
    nd.AddSorted(r);
    assert nd.queue == [w, r];
    var n, out := nd.Dispatch(false);
    assert out == Some(w);
    n, out := nd.Dispatch(false);
    assert out == Some(r);
    assert nd.log == [Event(Add, 'W', w.sector), Event(Add, 'R', r.sector),
                      Event(Dsp, 'W', w.sector), Event(Dsp, 'R', r.sector)];
  }

  /** Teardown is refused while a request is pending and allowed once the
      queue has been drained; the neighbour queries answer at the boundaries. */
  method LifecycleScenario()
  {
    var nd := InitQueue(true);
    var rq := Req(1, 100, false);
    nd.AddSorted(rq);
    assert nd.FormerRequest(rq) == None && nd.LatterRequest(rq) == None;
    var e := nd.ExitQueue();
    assert e == BugNonEmpty && nd.queue == [rq];
    var n, out := nd.Dispatch(false);
    assert out == Some(rq);
    e := nd.ExitQueue();
    assert e == Freed;
    var none := InitQueue(false);
    assert none == null;
  }

  /** Sorted admission of end sectors 10, 20, 30 keeps arrival order, and
      unlinking the middle one leaves the outer two adjacent. */
  lemma MergeOrder(a: Request, b: Request, c: Request)
    requires a.endSector == 10 && b.endSector == 20 && c.endSector == 30
    requires a.id != b.id && a.id != c.id && b.id != c.id
    ensures InsertSorted([], a) == [a]
    ensures InsertSorted([a], b) == [a, b]
    ensures InsertSorted([a, b], c) == [a, b, c]
    ensures Unlink(Refresh([a, b, c], a), b.id) == [a, c]
  {
    assert InsertSorted([b], c) == [b, c];
    assert [a, b][1..] == [b];
    assert Refresh([a, b, c], a) == [a, b, c];
    assert Ids([a, b, c]) == [a.id, b.id, c.id];
    assert IndexOf([a, b, c], b.id) == 1;
    assert RemoveAt([a, b, c], 1) == [a, c];
  }

  /** Admitting end sectors 10, 20, 30 in that order queues them in that order. */
  method MergeAdmit() returns (nd: ClookData, a: Request, b: Request, c: Request)
    ensures fresh(nd) && nd.Valid() && nd.queue == [a, b, c]
    ensures a.endSector == 10 && b.endSector == 20 && c.endSector == 30
    ensures a.id == 1 && b.id == 2 && c.id == 3
  {
    nd := new ClookData();
    a, b, c := Req(1, 10, false), Req(2, 20, false), Req(3, 30, false);
    MergeOrder(a, b, c);
    nd.AddSorted(a);
    nd.AddSorted(b);
    nd.AddSorted(c);
  }

  /** A merge unlinks the absorbed request and leaves its neighbours adjacent. */
  method MergeScenario()
  {
    var nd, a, b, c := MergeAdmit();
    MergeOrder(a, b, c);
    nd.MergedRequests(a, b);
    assert nd.queue == [a, c];
    assert nd.LatterRequest(a) == Some(c) && nd.FormerRequest(c) == Some(a);
  }

  /** A back merge grows `a` (end 10) to the end of `b` (end 20). Later
      admissions compare against the grown key: a request ending at 15 goes
      before `a`, not after it. */
  lemma GrownMergeOrder(a: Request, b: Request, c: Request, a2: Request, y: Request)
    requires a.endSector == 10 && b.endSector == 20 && c.endSector == 30
    requires a.id != b.id && a.id != c.id && b.id != c.id
    requires a2.id == a.id && a2.endSector == 20 && y.endSector == 15
    ensures Unlink(Refresh([a, b, c], a2), b.id) == [a2, c]
    ensures InsertSorted([a2, c], y) == [y, a2, c]
  {
    assert Refresh([a, b, c], a2) == [a2, b, c];
    assert Ids([a2, b, c]) == [a.id, b.id, c.id];
    assert IndexOf([a2, b, c], b.id) == 1;
    assert RemoveAt([a2, b, c], 1) == [a2, c];
  }

  /** The merge hook stores the grown record, so the next admission is placed
      by the request's current end sector. */
  method GrownMergeScenario()
  {
    var nd, a, b, c := MergeAdmit();
    var a2, y := Req(1, 20, false), Req(4, 15, true);
    GrownMergeOrder(a, b, c, a2, y);
    nd.MergedRequests(a2, b);
    assert nd.queue == [a2, c];
    nd.AddSorted(y);
    assert nd.queue == [y, a2, c];
  }
}
