/** The external SimplePriorityQueue, reduced to what the searches use: a sequence of
    (item, priority) entries in enqueue order, duplicates allowed, from which Dequeue
    removes an entry of least priority; among equal priorities, the one enqueued first. */
module PriorityQueue {

  datatype QEntry<T> = QEntry(item: T, priority: real)

  /** Entry k has the least priority in the queue. */
  predicate IsMinEntry<T>(pq: seq<QEntry<T>>, k: int)
  {
    0 <= k < |pq| && forall j :: 0 <= j < |pq| ==> pq[k].priority <= pq[j].priority
  }

  /** The first entry of least priority. */
  function MinIndex<T>(pq: seq<QEntry<T>>): (k: nat)
    requires pq != []
    ensures IsMinEntry(pq, k)
    ensures forall j :: 0 <= j < k ==> pq[j].priority > pq[k].priority
  {
    if |pq| == 1 then 0
    else
      var k := MinIndex(pq[1..]);
      if pq[0].priority <= pq[k + 1].priority then 0 else k + 1
  }

  /** The queue without entry k, the others keeping their order. */
  function RemoveAt<T>(pq: seq<QEntry<T>>, k: nat): (r: seq<QEntry<T>>)
    requires k < |pq|
    ensures |r| == |pq| - 1
    ensures forall j :: 0 <= j < |r| ==> r[j] == (if j < k then pq[j] else pq[j + 1])
  {
    pq[..k] + pq[k + 1..]
  }

  /** Dequeue: remove and return the earliest-enqueued item of least priority, with the
      position it held. */
  method Dequeue<T>(pq: seq<QEntry<T>>) returns (item: T, rest: seq<QEntry<T>>, k: nat)
    requires pq != []
    ensures IsMinEntry(pq, k) && item == pq[k].item && rest == RemoveAt(pq, k)
    ensures forall j :: 0 <= j < k ==> pq[j].priority > pq[k].priority
  {
    var j := MinIndex(pq);
    item, rest, k := pq[j].item, RemoveAt(pq, j), j;
  }

  /** The items waiting in the queue. */
  function Items<T>(pq: seq<QEntry<T>>): (r: set<T>)
    ensures forall k :: 0 <= k < |pq| ==> pq[k].item in r
  {
    set k | 0 <= k < |pq| :: pq[k].item
  }

  /** Removing entry k loses at most its own item. */
  lemma ItemsRemoveAt<T>(pq: seq<QEntry<T>>, k: nat)
    requires k < |pq|
    ensures Items(pq) <= Items(RemoveAt(pq, k)) + {pq[k].item}
    ensures Items(RemoveAt(pq, k)) <= Items(pq)
  {
    var r := RemoveAt(pq, k);
    forall t | t in Items(pq) ensures t in Items(r) + {pq[k].item} {
      var j :| 0 <= j < |pq| && pq[j].item == t;
      if j < k {
        assert r[j] == pq[j];
      } else if j > k {
        assert r[j - 1] == pq[j];
      }
    }
  }

  /** Enqueuing adds exactly the new item. */
  lemma ItemsAppend<T>(pq: seq<QEntry<T>>, e: QEntry<T>)
    ensures Items(pq + [e]) == Items(pq) + {e.item}
  {
    var r := pq + [e];
    forall t | t in Items(r) ensures t in Items(pq) + {e.item} {
      var j :| 0 <= j < |r| && r[j].item == t;
      if j < |pq| {
        assert r[j] == pq[j];
      }
    }
    forall t | t in Items(pq) + {e.item} ensures t in Items(r) {
      if t == e.item {
        assert r[|pq|] == e;
      } else {
        var j :| 0 <= j < |pq| && pq[j].item == t;
        assert r[j] == pq[j];
      }
    }
  }
}
