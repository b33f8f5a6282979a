/**
 * The offline sync queue: pending changes kept in browser storage under one
 * key, appended while offline and drained through per-action handlers once
 * the application is back online. Storage is a field of the queue object;
 * ids, clocks and the handlers' outcomes are parameters.
 */
module SyncQueue {
  import opened Base
  import opened Json

  /** A pending change: what to do, its payload, when it was queued and how often it failed. */
  datatype QueueItem = QueueItem(id: string, action: string, data: Value, timestamp: int, retries: int, lastRetry: Option<int>)

  /** What storage holds under the queue's key: nothing, text that does not parse, or a saved queue. */
  datatype Stored = Absent | Corrupt | Saved(items: seq<QueueItem>)

  /** The storage key the queue lives under. */
  const SyncQueueKey := "marvans-sync-queue"

  /** `getSyncQueue`: the saved queue, or [] when nothing is stored or the text does not parse. */
  function Load(stored: Stored): (q: seq<QueueItem>)
    ensures stored.Absent? || stored.Corrupt? ==> q == []
    ensures stored.Saved? ==> q == stored.items
  {
    match stored
    case Saved(items) => items
    case _ => []
  }

  /** The filter `(item) => item.id !== id`. */
  function OtherId(id: string): QueueItem -> bool
  {
    (x: QueueItem) => x.id != id
  }

  /** `queue.filter((item) => item.id !== id)`. */
  function RemoveId(q: seq<QueueItem>, id: string): (r: seq<QueueItem>)
    ensures forall x :: x in r <==> x in q && x.id != id
  {
    Filter(q, OtherId(id))
  }

  /** `queue.find((item) => item.id === id)`, as an index. */
  function FirstWithId(q: seq<QueueItem>, id: string): (r: Option<nat>)
    ensures r.Some? ==> r.value < |q| && q[r.value].id == id && forall k :: 0 <= k < r.value ==> q[k].id != id
    ensures r.None? ==> forall k :: 0 <= k < |q| ==> q[k].id != id
  {
    if q == [] then None
    else if q[0].id == id then Some(0)
    else match FirstWithId(q[1..], id)
      case None => None
      case Some(k) => Some(k + 1)
  }

  /** An item after one more failed attempt at time `now`. */
  function Retried(item: QueueItem, now: int): QueueItem
  {
    item.(retries := item.retries + 1, lastRetry := Some(now))
  }

  /**
   * `incrementRetry` on the queue: the first item with the id gets one more
   * retry, stamped `now`; no other item changes, and an unknown id changes
   * nothing.
   */
  function BumpRetry(q: seq<QueueItem>, id: string, now: int): (r: seq<QueueItem>)
    ensures |r| == |q|
    ensures FirstWithId(q, id).None? ==> r == q
    ensures FirstWithId(q, id).Some? ==>
              var i := FirstWithId(q, id).value;
              r[i].retries == q[i].retries + 1 && r[i].lastRetry == Some(now)
              && r[i].(retries := q[i].retries, lastRetry := q[i].lastRetry) == q[i]
              && forall k :: 0 <= k < |q| && k != i ==> r[k] == q[k]
  {
    match FirstWithId(q, id)
    case None => q
    case Some(i) => q[i := Retried(q[i], now)]
  }

  /** The ids in a queue. */
  function Ids(q: seq<QueueItem>): set<string>
  {
    set x | x in q :: x.id
  }

  /** No two items share an id. */
  predicate DistinctIds(q: seq<QueueItem>)
  {
    forall i, j :: 0 <= i < j < |q| ==> q[i].id != q[j].id
  }

  /** Removing an item appended under a fresh id gives back the queue it was appended to. */
  lemma RemoveAdded(q: seq<QueueItem>, item: QueueItem)
    requires item.id !in Ids(q)
    ensures RemoveId(q + [item], item.id) == q
  {
    var keep := OtherId(item.id);
    FilterAppend(q, [item], keep);
    KeepsOthers(q, item.id);
    assert [item][1..] == [];
  }

  /** Removing an id from a queue where only one item has it drops exactly that item, keeping the rest in order. */
  lemma RemoveOnly(before: seq<QueueItem>, item: QueueItem, after: seq<QueueItem>)
    requires item.id !in Ids(before) && item.id !in Ids(after)
    ensures RemoveId(before + [item] + after, item.id) == before + after
  {
    var keep := OtherId(item.id);
    var front := before + [item];
    FilterAppend(front, after, keep);
    FilterAppend(before, [item], keep);
    assert Filter([item], keep) == [] by {
      assert [item][1..] == [];
    }
    KeepsOthers(before, item.id);
    KeepsOthers(after, item.id);
    assert Filter(front, keep) == before;
    assert Filter(front + after, keep) == before + after;
    assert RemoveId(front + after, item.id) == Filter(front + after, keep);
  }

  /** A queue without the id passes the filter whole. */
  lemma KeepsOthers(q: seq<QueueItem>, id: string)
    requires id !in Ids(q)
    ensures Filter(q, OtherId(id)) == q
  {
    forall x | x in q
      ensures OtherId(id)(x)
    {
      assert x.id in Ids(q);
    }
    FilterKeepsAll(q, OtherId(id));
  }

  /** Retrying an id that only one item has retries exactly that item. */
  lemma {:induction false} BumpOnly(before: seq<QueueItem>, item: QueueItem, after: seq<QueueItem>, now: int)
    requires item.id !in Ids(before)
    ensures BumpRetry(before + [item] + after, item.id, now) == before + [Retried(item, now)] + after
  {
    var q := before + [item] + after;
    assert q[|before|] == item;
    assert forall k :: 0 <= k < |before| ==> q[k] == before[k] && q[k] in before;
    assert FirstWithId(q, item.id) == Some(|before|);
  }

  /** The outcome of draining: the queue left in storage, how many items were synced, and the ids that failed. */
  datatype Outcome = Outcome(queue: seq<QueueItem>, processed: nat, errors: seq<string>)

  /** What `processSyncQueue` returns: an empty queue short-cuts with success and nothing processed. */
  datatype SyncResult =
    | NothingToSync
    | Synced(success: bool, processed: nat, errors: seq<string>, remaining: nat)

  /**
   * One turn of the drain loop for the snapshot's item at position `k`:
   * without a handler nothing happens; a handler that throws retries the
   * item and records its id; a handler that succeeds removes the item.
   */
  function ProcessStep(o: Outcome, item: QueueItem, k: nat, handlers: set<string>, throws: nat -> bool, clock: nat -> int): Outcome
  {
    if item.action !in handlers then o
    else if throws(k) then Outcome(BumpRetry(o.queue, item.id, clock(k)), o.processed, o.errors + [item.id])
    else Outcome(RemoveId(o.queue, item.id), o.processed + 1, o.errors)
  }

  /** The state after the loop has handled the first `n` items of the snapshot. */
  function ProcessPrefix(snapshot: seq<QueueItem>, n: nat, handlers: set<string>, throws: nat -> bool, clock: nat -> int): (o: Outcome)
    requires n <= |snapshot|
    ensures o.processed + |o.errors| <= n
  {
    if n == 0 then Outcome(snapshot, 0, [])
    else ProcessStep(ProcessPrefix(snapshot, n - 1, handlers, throws, clock), snapshot[n - 1], n - 1, handlers, throws, clock)
  }

  /** `processSyncQueue`'s result for a queue; it succeeds exactly when no handler threw. */
  function SyncOutcome(snapshot: seq<QueueItem>, handlers: set<string>, throws: nat -> bool, clock: nat -> int): (r: SyncResult)
    ensures snapshot == [] <==> r.NothingToSync?
    ensures r.Synced? ==> (r.success <==> r.errors == []) && r.processed + |r.errors| <= |snapshot|
  {
    if snapshot == [] then NothingToSync
    else
      var o := ProcessPrefix(snapshot, |snapshot|, handlers, throws, clock);
      Synced(o.errors == [], o.processed, o.errors, |o.queue|)
  }

  // ---------------------------------------------------------------- the drain, item by item

  /** What becomes of an item handled at turn `k`: kept, kept with one more retry, or removed. */
  function Fate(item: QueueItem, k: nat, handlers: set<string>, throws: nat -> bool, clock: nat -> int): seq<QueueItem>
  {
    if item.action !in handlers then [item]
    else if throws(k) then [Retried(item, clock(k))]
    else []
  }

  /** The survivors of the first `n` items, in order. */
  function Survivors(snapshot: seq<QueueItem>, n: nat, handlers: set<string>, throws: nat -> bool, clock: nat -> int): (r: seq<QueueItem>)
    requires n <= |snapshot|
    ensures Ids(r) <= Ids(snapshot[..n])
  {
    if n == 0 then []
    else
      var r := Survivors(snapshot, n - 1, handlers, throws, clock) + Fate(snapshot[n - 1], n - 1, handlers, throws, clock);
      assert Ids(snapshot[..n]) == Ids(snapshot[..n - 1]) + {snapshot[n - 1].id} by {
        assert snapshot[..n] == snapshot[..n - 1] + [snapshot[n - 1]];
      }
      r
  }

  /** An item's id differs from the ids before it and after it. */
  lemma DistinctSplit(snapshot: seq<QueueItem>, k: nat)
    requires DistinctIds(snapshot) && k < |snapshot|
    ensures snapshot[k].id !in Ids(snapshot[..k]) && snapshot[k].id !in Ids(snapshot[k + 1..])
  {
  }

  /**
   * With distinct ids, after `n` turns the stored queue is the survivors of
   * the first `n` items followed by the untouched rest; `processed` counts
   * the successes and `errors` lists the failures' ids in order.
   */
  lemma {:induction false} ProcessPrefixShape(snapshot: seq<QueueItem>, n: nat, handlers: set<string>, throws: nat -> bool, clock: nat -> int)
    requires DistinctIds(snapshot) && n <= |snapshot|
    ensures ProcessPrefix(snapshot, n, handlers, throws, clock).queue
            == Survivors(snapshot, n, handlers, throws, clock) + snapshot[n..]
  {
    if n == 0 {
      assert snapshot[0..] == snapshot;
    } else {
      ProcessPrefixShape(snapshot, n - 1, handlers, throws, clock);
      var item := snapshot[n - 1];
      var done := Survivors(snapshot, n - 1, handlers, throws, clock);
      var rest := snapshot[n..];
      var prev := ProcessPrefix(snapshot, n - 1, handlers, throws, clock);
      assert snapshot[n - 1..] == [item] + rest;
      assert prev.queue == done + ([item] + rest);
      DistinctSplit(snapshot, n - 1);
      assert item.id !in Ids(done);
      StepShape(prev, done, item, rest, n - 1, handlers, throws, clock);
      assert ProcessPrefix(snapshot, n, handlers, throws, clock) == ProcessStep(prev, item, n - 1, handlers, throws, clock);
      assert Survivors(snapshot, n, handlers, throws, clock) == done + Fate(item, n - 1, handlers, throws, clock);
    }
  }

  /** One turn on a queue whose only item with the handled id is that item: the item is replaced by its fate. */
  lemma StepShape(o: Outcome, done: seq<QueueItem>, item: QueueItem, rest: seq<QueueItem>,
                  k: nat, handlers: set<string>, throws: nat -> bool, clock: nat -> int)
    requires o.queue == done + ([item] + rest)
    requires item.id !in Ids(done) && item.id !in Ids(rest)
    ensures ProcessStep(o, item, k, handlers, throws, clock).queue == done + Fate(item, k, handlers, throws, clock) + rest
  {
    assert o.queue == done + [item] + rest;
    if item.action !in handlers {
    } else if throws(k) {
      BumpOnly(done, item, rest, clock(k));
    } else {
      RemoveOnly(done, item, rest);
    }
  }

  /** Number of items among the first `n` whose handler exists and succeeded. */
  function Successes(snapshot: seq<QueueItem>, n: nat, handlers: set<string>, throws: nat -> bool): nat
    requires n <= |snapshot|
  {
    if n == 0 then 0
    else Successes(snapshot, n - 1, handlers, throws) + (if snapshot[n - 1].action in handlers && !throws(n - 1) then 1 else 0)
  }

  /** Ids, in order, of the items among the first `n` whose handler threw. */
  function Failures(snapshot: seq<QueueItem>, n: nat, handlers: set<string>, throws: nat -> bool): seq<string>
    requires n <= |snapshot|
  {
    if n == 0 then []
    else Failures(snapshot, n - 1, handlers, throws) + (if snapshot[n - 1].action in handlers && throws(n - 1) then [snapshot[n - 1].id] else [])
  }

  /** The counters after `n` turns: the successes so far and the failures' ids. */
  lemma {:induction false} ProcessPrefixCounts(snapshot: seq<QueueItem>, n: nat, handlers: set<string>, throws: nat -> bool, clock: nat -> int)
    requires n <= |snapshot|
    ensures ProcessPrefix(snapshot, n, handlers, throws, clock).processed == Successes(snapshot, n, handlers, throws)
    ensures ProcessPrefix(snapshot, n, handlers, throws, clock).errors == Failures(snapshot, n, handlers, throws)
  {
    if n > 0 {
      ProcessPrefixCounts(snapshot, n - 1, handlers, throws, clock);
    }
  }

  /**
   * Draining a queue with distinct ids: every item whose handler succeeded
   * is gone, every item whose handler threw stays with one more retry,
   * every item without a handler stays untouched, all in their order; the
   * result counts the successes, lists the failures and reports what is
   * left.
   */
  lemma DrainResult(snapshot: seq<QueueItem>, handlers: set<string>, throws: nat -> bool, clock: nat -> int)
    requires DistinctIds(snapshot) && snapshot != []
    ensures ProcessPrefix(snapshot, |snapshot|, handlers, throws, clock).queue == Survivors(snapshot, |snapshot|, handlers, throws, clock)
    ensures SyncOutcome(snapshot, handlers, throws, clock)
            == Synced(Failures(snapshot, |snapshot|, handlers, throws) == [],
                      Successes(snapshot, |snapshot|, handlers, throws),
                      Failures(snapshot, |snapshot|, handlers, throws),
                      |Survivors(snapshot, |snapshot|, handlers, throws, clock)|)
  {
    ProcessPrefixShape(snapshot, |snapshot|, handlers, throws, clock);
    ProcessPrefixCounts(snapshot, |snapshot|, handlers, throws, clock);
    assert snapshot[|snapshot|..] == [];
  }

  // ---------------------------------------------------------------- the stored queue

  /** The queue as stored in the browser; every change is written back. */
  class SyncQueueStore {
    var stored: Stored

    /** `getSyncQueue`. */
    function Queue(): seq<QueueItem>
      reads this
    {
      Load(stored)
    }

    constructor (initial: Stored)
      ensures stored == initial
    {
      stored := initial;
    }

    /** `addToSyncQueue`: appends a new item with no retries, saves the queue and returns the item. */
    method Add(action: string, data: Value, id: string, now: int) returns (item: QueueItem)
      modifies this
      ensures item == QueueItem(id, action, data, now, 0, None)
      ensures stored == Saved(old(Queue()) + [item])
      ensures id !in Ids(old(Queue())) ==> RemoveId(Queue(), id) == old(Queue())
    {
      item := QueueItem(id, action, data, now, 0, None);
      var queue := Queue();
      if id !in Ids(queue) {
        RemoveAdded(queue, item);
      }
      stored := Saved(queue + [item]);
    }

    /** `removeFromSyncQueue`: drops every item with the id, saves and returns the rest. */
    method Remove(id: string) returns (newQueue: seq<QueueItem>)
      modifies this
      ensures newQueue == RemoveId(old(Queue()), id)
      ensures stored == Saved(newQueue)
      ensures forall x :: x in Queue() ==> x.id != id
    {
      newQueue := RemoveId(Queue(), id);
      stored := Saved(newQueue);
    }

    /** `incrementRetry`: retries the first item with the id and saves; an unknown id leaves storage as it was. */
    method IncrementRetry(id: string, now: int) returns (queue: seq<QueueItem>)
      modifies this
      ensures queue == BumpRetry(old(Queue()), id, now)
      ensures FirstWithId(old(Queue()), id).Some? ==> stored == Saved(queue)
      ensures FirstWithId(old(Queue()), id).None? ==> stored == old(stored)
      ensures Queue() == queue
    {
      queue := Queue();
      var found := FirstWithId(queue, id);
      if found.Some? {
        var i := found.value;
        queue := queue[i := Retried(queue[i], now)];
        stored := Saved(queue);
      }
    }

    /** `getPendingSyncCount`. */
    method PendingCount() returns (count: nat)
      ensures count == |Load(stored)|
      ensures stored.Absent? || stored.Corrupt? ==> count == 0
    {
      count := |Queue()|;
    }

    /** `clearSyncQueue`: removes the stored queue, so nothing is pending. */
    method Clear()
      modifies this
      ensures stored == Absent && Queue() == []
    {
      stored := Absent;
    }

    /**
     * `processSyncQueue`: walks a snapshot of the queue, calling the
     * handler of each item's action. `throws(k)` says whether the handler
     * called for the snapshot's `k`-th item throws, and `clock(k)` is the
     * time of that turn.
     */
    method Process(handlers: set<string>, throws: nat -> bool, clock: nat -> int) returns (result: SyncResult)
      modifies this
      ensures result == SyncOutcome(old(Queue()), handlers, throws, clock)
      ensures old(Queue()) == [] ==> stored == old(stored)
      ensures old(Queue()) != [] ==> stored == Saved(ProcessPrefix(old(Queue()), |old(Queue())|, handlers, throws, clock).queue)
    {
      var queue := Queue();
      if |queue| == 0 {
        return NothingToSync;
      }
      var processed := 0;
      var errors := [];
      for i := 0 to |queue|
        invariant stored == Saved(ProcessPrefix(queue, i, handlers, throws, clock).queue)
        invariant processed == ProcessPrefix(queue, i, handlers, throws, clock).processed
        invariant errors == ProcessPrefix(queue, i, handlers, throws, clock).errors
      {
        var item := queue[i];
        if item.action in handlers {
          if throws(i) {
            var _ := IncrementRetry(item.id, clock(i));
            errors := errors + [item.id];
          } else {
            var _ := Remove(item.id);
            processed := processed + 1;
          }
        }
      }
      result := Synced(|errors| == 0, processed, errors, |Queue()|);
    }
  }
}
