/**
 * The value side of the C-LOOK pending queue: request records, the ordering
 * the queue is meant to keep (non-decreasing end sector), the reference
 * definition of sorted admission, and the sequence surgery that admission,
 * dispatch and merging perform on the queue.
 */
module OrderedQueue {

  datatype Option<T> = None | Some(value: T)

  /** A block-layer request as the scheduler sees it. `id` is the request's
      identity (its address in the kernel): two records with the same `id`
      describe the same request, possibly at different times. `sector` is its
      first sector, `endSector` the key the queue is ordered by, and `isWrite`
      its data direction. */
  datatype Request = Request(id: nat, sector: nat, endSector: nat, isWrite: bool)

  /** Non-decreasing by end sector. */
  predicate Sorted(s: seq<Request>)
  {
    forall i, j :: 0 <= i < j < |s| ==> s[i].endSector <= s[j].endSector
  }

  /** The identities of the queued requests, in queue order. */
  function Ids(s: seq<Request>): (r: seq<nat>)
    ensures |r| == |s|
    ensures forall i :: 0 <= i < |s| ==> r[i] == s[i].id
  {
    seq(|s|, i requires 0 <= i < |s| => s[i].id)
  }

  /** No request is linked into the queue twice. */
  predicate Distinct(s: seq<Request>)
  {
    forall i, j :: 0 <= i < j < |s| ==> s[i].id != s[j].id
  }

  /** `k` is where the admission scan stops for `key`: every element before it
      has end sector at most `key`, and the element at it (if any) is the first
      whose end sector is strictly greater. */
  predicate IsInsertionPoint(s: seq<Request>, key: nat, k: nat)
  {
    k <= |s| &&
    (forall j :: 0 <= j < k ==> s[j].endSector <= key) &&
    (k < |s| ==> s[k].endSector > key)
  }

  /** Reference definition of sorted admission: `rq` goes immediately before
      the first element with a strictly greater end sector, or at the end. */
  function InsertSorted(s: seq<Request>, rq: Request): seq<Request>
  {
    if s == [] then [rq]
    else if s[0].endSector > rq.endSector then [rq] + s
    else [s[0]] + InsertSorted(s[1..], rq)
  }

  function InsertAt(s: seq<Request>, k: nat, x: Request): (r: seq<Request>)
    requires k <= |s|
    ensures |r| == |s| + 1 && r[k] == x
    ensures forall j :: 0 <= j < k ==> r[j] == s[j]
    ensures forall j :: k < j < |r| ==> r[j] == s[j - 1]
  {
    s[..k] + [x] + s[k..]
  }

  function RemoveAt(s: seq<Request>, k: nat): (r: seq<Request>)
    requires k < |s|
    ensures |r| == |s| - 1
    ensures forall j :: 0 <= j < k ==> r[j] == s[j]
    ensures forall j :: k <= j < |r| ==> r[j] == s[j + 1]
  {
    s[..k] + s[k + 1..]
  }

  /** The position of the queued request with identity `id`. */
  function IndexOf(s: seq<Request>, id: nat): (i: nat)
    requires id in Ids(s)
    ensures i < |s| && s[i].id == id
    ensures forall j :: 0 <= j < i ==> s[j].id != id
  {
    if s[0].id == id then 0
    else
      assert id in Ids(s[1..]) by {
        var k :| 0 <= k < |s| && Ids(s)[k] == id;
        assert Ids(s[1..])[k - 1] == id;
      }
      1 + IndexOf(s[1..], id)
  }

  /** In a queue without duplicates a member has exactly one position. */
  lemma DistinctIndex(s: seq<Request>, i: nat)
    requires Distinct(s) && i < |s|
    ensures IndexOf(s, s[i].id) == i
  {
  }

  /** The host's current view of a queued request: every element with `rq`'s
      identity is replaced by the record `rq`, nothing else changes. */
  function Refresh(s: seq<Request>, rq: Request): (r: seq<Request>)
    ensures |r| == |s| && Ids(r) == Ids(s)
    ensures forall i :: 0 <= i < |s| ==> r[i] == if s[i].id == rq.id then rq else s[i]
  {
    seq(|s|, i requires 0 <= i < |s| => if s[i].id == rq.id then rq else s[i])
  }

  /** Refreshing a record whose end sector did not change keeps the order,
      and refreshing never creates a duplicate. */
  lemma RefreshProperties(s: seq<Request>, rq: Request)
    ensures Distinct(s) ==> Distinct(Refresh(s, rq))
    ensures Sorted(s) && (forall i :: 0 <= i < |s| && s[i].id == rq.id ==> s[i].endSector == rq.endSector) ==>
      Sorted(Refresh(s, rq))
    ensures rq.id in Ids(s) ==> rq in Refresh(s, rq)
  {
    var r := Refresh(s, rq);
    if rq.id in Ids(s) {
      var k := IndexOf(s, rq.id);
      assert r[k] == rq;
    }
    if Distinct(s) {
      forall i, j | 0 <= i < j < |r|
        ensures r[i].id != r[j].id
      {
        assert r[i].id == s[i].id && r[j].id == s[j].id;
      }
    }
  }

  /** The insertion point for a key is unique: the scan's answer is determined. */
  lemma InsertionPointUnique(s: seq<Request>, key: nat, k1: nat, k2: nat)
    requires IsInsertionPoint(s, key, k1) && IsInsertionPoint(s, key, k2)
    ensures k1 == k2
  {
  }

  /** Splicing the new request in at the scan's stopping point is exactly the
      reference sorted admission. */
  lemma {:induction false} SpliceIsInsertSorted(s: seq<Request>, rq: Request, k: nat)
    requires IsInsertionPoint(s, rq.endSector, k)
    ensures InsertAt(s, k, rq) == InsertSorted(s, rq)
  {
    if s == [] {
    } else if k == 0 {
      assert InsertAt(s, 0, rq) == [rq] + s;
    } else {
      assert s[0].endSector <= rq.endSector;
      assert IsInsertionPoint(s[1..], rq.endSector, k - 1);
      SpliceIsInsertSorted(s[1..], rq, k - 1);
      assert InsertAt(s, k, rq) == [s[0]] + InsertAt(s[1..], k - 1, rq);
    }
  }

  /** Sorted admission grows the queue by exactly the new request. */
  lemma {:induction false} InsertSortedMultiset(s: seq<Request>, rq: Request)
    ensures |InsertSorted(s, rq)| == |s| + 1
    ensures multiset(InsertSorted(s, rq)) == multiset(s) + multiset{rq}
  {
    if s == [] || s[0].endSector > rq.endSector {
    } else {
      InsertSortedMultiset(s[1..], rq);
      assert s == [s[0]] + s[1..];
    }
  }

  /** Sorted admission adds the new request and nothing else. */
  lemma {:induction false} InsertSortedMembers(s: seq<Request>, rq: Request)
    ensures forall x :: x in InsertSorted(s, rq) <==> x in s || x == rq
  {
    if s == [] || s[0].endSector > rq.endSector {
    } else {
      InsertSortedMembers(s[1..], rq);
      assert s == [s[0]] + s[1..];
    }
  }

  /** Sorted admission keeps the queue ordered by end sector. */
  lemma {:induction false} InsertSortedKeepsOrder(s: seq<Request>, rq: Request)
    requires Sorted(s)
    ensures Sorted(InsertSorted(s, rq))
  {
    if s == [] || s[0].endSector > rq.endSector {
    } else {
      var t := InsertSorted(s[1..], rq);
      InsertSortedKeepsOrder(s[1..], rq);
      InsertSortedMembers(s[1..], rq);
      var r := [s[0]] + t;
      assert r == InsertSorted(s, rq);
      forall i, j | 0 <= i < j < |r|
        ensures r[i].endSector <= r[j].endSector
      {
        if i == 0 {
          assert r[j] == t[j - 1] && t[j - 1] in t;
          if t[j - 1] != rq {
            var m :| 0 <= m < |s[1..]| && s[1..][m] == t[j - 1];
            assert s[0].endSector <= s[m + 1].endSector;
          }
        } else {
          assert r[i] == t[i - 1] && r[j] == t[j - 1];
        }
      }
    }
  }

  /** In the result, everything queued before the new request has end sector
      at most its key, on any queue, ordered or not. */
  lemma {:induction false} InsertSortedBefore(s: seq<Request>, rq: Request)
    requires rq !in s
    ensures forall i, j :: 0 <= j < i < |InsertSorted(s, rq)| && InsertSorted(s, rq)[i] == rq ==>
      InsertSorted(s, rq)[j].endSector <= rq.endSector
  {
    if s == [] || s[0].endSector > rq.endSector {
    } else {
      InsertSortedBefore(s[1..], rq);
      var r, t := InsertSorted(s, rq), InsertSorted(s[1..], rq);
      assert r == [s[0]] + t;
      assert r[0] != rq;
    }
  }

  /** On an ordered queue, everything after the newly admitted request has a
      strictly greater end sector. */
  lemma {:induction false} InsertSortedAfter(s: seq<Request>, rq: Request)
    requires Sorted(s) && rq !in s
    ensures forall i, j :: 0 <= i < j < |InsertSorted(s, rq)| && InsertSorted(s, rq)[i] == rq ==>
      InsertSorted(s, rq)[j].endSector > rq.endSector
  {
    var r := InsertSorted(s, rq);
    if s == [] {
    } else if s[0].endSector > rq.endSector {
      assert r == [rq] + s;
      forall i, j | 0 <= i < j < |r| && r[i] == rq
        ensures r[j].endSector > rq.endSector
      {
        assert i == 0;
        assert s[0].endSector <= s[j - 1].endSector;
      }
    } else {
      InsertSortedAfter(s[1..], rq);
      var t := InsertSorted(s[1..], rq);
      assert r == [s[0]] + t;
      assert r[0] != rq;
    }
  }

  /** FIFO tie-break: on an ordered queue, a queued request with the same end
      sector as the new one stays in the queue and ahead of it. */
  lemma InsertSortedFifo(s: seq<Request>, rq: Request, x: Request)
    requires Sorted(s) && rq !in s && x in s && x.endSector == rq.endSector
    ensures x in InsertSorted(s, rq)
    ensures forall i, j ::
      (0 <= i < |InsertSorted(s, rq)| && 0 <= j < |InsertSorted(s, rq)| &&
       InsertSorted(s, rq)[i] == x && InsertSorted(s, rq)[j] == rq) ==> i < j
  {
    InsertSortedMembers(s, rq);
    InsertSortedAfter(s, rq);
  }

  /** The appending admission at clook-iosched.c:81 coincides with sorted
      admission exactly when the new key is at least every queued key. */
  lemma {:induction false} AppendAgreesIff(s: seq<Request>, rq: Request)
    ensures InsertSorted(s, rq) == s + [rq] <==>
      forall j :: 0 <= j < |s| ==> s[j].endSector <= rq.endSector
  {
    if s == [] {
    } else if s[0].endSector > rq.endSector {
      assert (InsertSorted(s, rq))[0] == rq != s[0] == (s + [rq])[0];
    } else {
      AppendAgreesIff(s[1..], rq);
      assert s + [rq] == [s[0]] + (s[1..] + [rq]);
      assert InsertSorted(s, rq) == [s[0]] + InsertSorted(s[1..], rq);
      if InsertSorted(s, rq) == s + [rq] {
        assert InsertSorted(s[1..], rq) == (s + [rq])[1..];
      }
      if forall j :: 0 <= j < |s| ==> s[j].endSector <= rq.endSector {
        assert forall j :: 0 <= j < |s[1..]| ==> s[1..][j] == s[j + 1];
      }
    }
  }

  /** Appending keeps the order iff the new key is at least the last one. */
  lemma AppendSortedIff(s: seq<Request>, rq: Request)
    ensures Sorted(s + [rq]) <==>
      Sorted(s) && (s == [] || s[|s| - 1].endSector <= rq.endSector)
  {
    var t := s + [rq];
    if Sorted(s) && (s == [] || s[|s| - 1].endSector <= rq.endSector) {
      forall i, j | 0 <= i < j < |t|
        ensures t[i].endSector <= t[j].endSector
      {
        if j == |s| && i < |s| - 1 {
          assert s[i].endSector <= s[|s| - 1].endSector;
        }
      }
    }
    if Sorted(t) {
      assert forall i, j :: 0 <= i < j < |s| ==> s[i] == t[i] && s[j] == t[j];
      if s != [] {
        assert t[|s| - 1] == s[|s| - 1] && t[|s|] == rq;
      }
    }
  }

  /** Inserting a request that is not queued keeps the queue free of
      duplicates. */
  lemma InsertAtDistinct(s: seq<Request>, k: nat, x: Request)
    requires Distinct(s) && x.id !in Ids(s) && k <= |s|
    ensures Distinct(InsertAt(s, k, x))
  {
    var r := InsertAt(s, k, x);
    forall i, j | 0 <= i < j < |r|
      ensures r[i].id != r[j].id
    {
      var si := if i < k then i else i - 1;
      var sj := if j < k then j else j - 1;
      if i != k && j != k {
        assert r[i] == s[si] && r[j] == s[sj] && si < sj;
      } else if i == k {
        assert r[j] == s[sj] && Ids(s)[sj] == s[sj].id;
      } else {
        assert r[i] == s[si] && Ids(s)[si] == s[si].id;
      }
    }
  }

  /** Unlinking one element removes exactly that element from the multiset. */
  lemma RemoveAtMultiset(s: seq<Request>, k: nat)
    requires k < |s|
    ensures multiset(RemoveAt(s, k)) == multiset(s) - multiset{s[k]}
  {
    assert s == s[..k] + [s[k]] + s[k + 1..];
  }

  /** Unlinking keeps the remaining elements in their relative order, so an
      ordered queue stays ordered. */
  lemma RemoveAtSorted(s: seq<Request>, k: nat)
    requires k < |s| && Sorted(s)
    ensures Sorted(RemoveAt(s, k))
  {
    var r := RemoveAt(s, k);
    forall i, j | 0 <= i < j < |r|
      ensures r[i].endSector <= r[j].endSector
    {
      var si := if i < k then i else i + 1;
      var sj := if j < k then j else j + 1;
      assert r[i] == s[si] && r[j] == s[sj] && si < sj;
    }
  }

  /** Unlinking from a duplicate-free queue leaves it duplicate-free and the
      unlinked request absent. */
  lemma RemoveAtDistinct(s: seq<Request>, k: nat)
    requires k < |s| && Distinct(s)
    ensures Distinct(RemoveAt(s, k)) && s[k].id !in Ids(RemoveAt(s, k))
  {
    var r := RemoveAt(s, k);
    forall j | 0 <= j < |r|
      ensures r[j].id != s[k].id
    {
      if j < k { assert r[j] == s[j]; } else { assert r[j] == s[j + 1]; }
    }
    forall i, j | 0 <= i < j < |r|
      ensures r[i].id != r[j].id
    {
      var si := if i < k then i else i + 1;
      var sj := if j < k then j else j + 1;
      assert r[i] == s[si] && r[j] == s[sj] && si < sj;
    }
  }

  /** Unlinking the request with identity `id`, if it is queued. */
  function Unlink(s: seq<Request>, id: nat): seq<Request>
  {
    if id in Ids(s) then RemoveAt(s, IndexOf(s, id)) else s
  }

  /** On a duplicate-free queue, unlinking removes exactly the element with
      that identity, wherever it is, and keeps every invariant. */
  lemma UnlinkProperties(s: seq<Request>, id: nat)
    requires Distinct(s)
    ensures Distinct(Unlink(s, id)) && id !in Ids(Unlink(s, id))
    ensures forall i :: 0 <= i < |s| && s[i].id == id ==> Unlink(s, id) == RemoveAt(s, i)
    ensures id !in Ids(s) ==> Unlink(s, id) == s
    ensures Sorted(s) ==> Sorted(Unlink(s, id))
    ensures forall x :: x in s && x.id != id ==> x in Unlink(s, id)
  {
    if id in Ids(s) {
      var k := IndexOf(s, id);
      RemoveAtDistinct(s, k);
      if Sorted(s) {
        RemoveAtSorted(s, k);
      }
      forall j | 0 <= j < |s| && s[j].id == id
        ensures j == k
      {
        DistinctIndex(s, j);
      }
      var r := RemoveAt(s, k);
      forall x | x in s && x.id != id
        ensures x in r
      {
        var m :| 0 <= m < |s| && s[m] == x;
        assert r[if m < k then m else m - 1] == x;
      }
    }
  }

  /** Taking the head off a duplicate-free queue: the head is no longer queued,
      exactly it leaves the multiset, and on an ordered queue it has the
      smallest end sector and the rest stays ordered. */
  lemma PopHead(s: seq<Request>)
    requires Distinct(s) && s != []
    ensures Distinct(s[1..]) && s[0].id !in Ids(s[1..])
    ensures multiset(s) == multiset(s[1..]) + multiset{s[0]}
    ensures Sorted(s) ==> Sorted(s[1..]) && forall x :: x in s[1..] ==> s[0].endSector <= x.endSector
  {
    assert RemoveAt(s, 0) == s[1..];
    RemoveAtDistinct(s, 0);
    RemoveAtMultiset(s, 0);
    if Sorted(s) {
      RemoveAtSorted(s, 0);
      HeadIsMinimum(s);
      assert forall x :: x in s[1..] ==> x in s;
    }
  }

  /** On an ordered queue the head carries the smallest end sector: dispatching
      the head serves the globally smallest key. */
  lemma {:induction false} HeadIsMinimum(s: seq<Request>)
    requires Sorted(s) && s != []
    ensures forall x :: x in s ==> s[0].endSector <= x.endSector
  {
    forall x | x in s
      ensures s[0].endSector <= x.endSector
    {
      var i :| 0 <= i < |s| && s[i] == x;
      if i > 0 {
        assert s[0].endSector <= s[i].endSector;
      }
    }
  }
}
