/**
 The queue of packets waiting for a route (aerorp-pqueue.cc, aerorp-pqueue.h) against a ledger:
 the list of all accepted packets in order of arrival, each with its fate.
 */
module RequestQueue {
  import opened Wrappers

  type Address = nat

  /** `expire` is the absolute time at which the remaining time is zero. */
  datatype Entry = Entry(uid: nat, src: Address, dst: Address, expire: int)

  /** `reported` are the entries whose error callback was called, in order. */
  datatype Queue = Queue(items: seq<Entry>, maxLen: nat, timeout: int, reported: seq<Entry>)

  // ---------------------------------------------------------------- selection

  function Select(q: seq<Entry>, p: Entry -> bool): (r: seq<Entry>)
    ensures |r| <= |q|
    decreases |q|
  {
    if q == [] then [] else
    var r := Select(q[..|q| - 1], p);
    if p(q[|q| - 1]) then r + [q[|q| - 1]] else r
  }

  lemma SelectNone(p: Entry -> bool)
    ensures Select([], p) == []
  {
  }

  lemma SelectStep(q: seq<Entry>, i: nat, p: Entry -> bool)
    requires i < |q|
    ensures Select(q[..i + 1], p) == Select(q[..i], p) + if p(q[i]) then [q[i]] else []
  {
    assert q[..i + 1][..i] == q[..i];
  }

  lemma {:induction false} SelectSplit(a: seq<Entry>, b: seq<Entry>, p: Entry -> bool)
    ensures Select(a + b, p) == Select(a, p) + Select(b, p)
    decreases |b|
  {
    if b == [] {
      assert a + b == a;
    } else {
      var n := |b| - 1;
      assert (a + b)[..|a| + n] == a + b[..n] && (a + b)[|a| + n] == b[n];
      SelectSplit(a, b[..n], p);
    }
  }

  lemma SelectOne(e: Entry, p: Entry -> bool)
    ensures Select([e], p) == if p(e) then [e] else []
  {
    assert [e][..0] == [];
  }

  lemma {:induction false} Selected(q: seq<Entry>, p: Entry -> bool, e: Entry)
    ensures e in Select(q, p) <==> e in q && p(e)
    decreases |q|
  {
    if q != [] {
      Selected(q[..|q| - 1], p, e);
      assert q == q[..|q| - 1] + [q[|q| - 1]];
    }
  }

  lemma SelectAt(q: seq<Entry>, k: nat, p: Entry -> bool)
    requires k < |q|
    ensures Select(q, p) == Select(q[..k], p) + (if p(q[k]) then [q[k]] else []) + Select(q[k + 1..], p)
    ensures Select(Without(q, k), p) == Select(q[..k], p) + Select(q[k + 1..], p)
  {
    assert q == q[..k + 1] + q[k + 1..];
    SelectSplit(q[..k + 1], q[k + 1..], p);
    SelectStep(q, k, p);
    SelectSplit(q[..k], q[k + 1..], p);
  }

  lemma {:induction false} SelectNothing(q: seq<Entry>, p: Entry -> bool)
    requires forall e :: e in q ==> !p(e)
    ensures Select(q, p) == [] && Select(q, Not(p)) == q
    decreases |q|
  {
    if q != [] {
      SelectNothing(q[..|q| - 1], p);
    }
  }

  function Not(p: Entry -> bool): Entry -> bool {
    (e: Entry) => !p(e)
  }

  /** GetExpireTime is below zero. */
  function Expired(now: int): Entry -> bool {
    (e: Entry) => e.expire - now < 0
  }

  function To(dst: Address): Entry -> bool {
    (e: Entry) => e.dst == dst
  }

  /** Same packet for the same destination. */
  function Twin(x: Entry): Entry -> bool {
    (e: Entry) => e.uid == x.uid && e.dst == x.dst
  }

  /** Position of the first entry that satisfies p, or the length. */
  function First(q: seq<Entry>, p: Entry -> bool): (i: nat)
    ensures i <= |q| && (i < |q| ==> p(q[i])) && forall k :: 0 <= k < i ==> !p(q[k])
  {
    if q == [] || p(q[0]) then 0 else 1 + First(q[1..], p)
  }

  function Without(q: seq<Entry>, i: nat): seq<Entry>
    requires i < |q|
  {
    q[..i] + q[i + 1..]
  }

  // ---------------------------------------------------------------- what each call does

  function EraseF(q: Queue, p: Entry -> bool): Queue {
    q.(items := Select(q.items, Not(p)), reported := q.reported + Select(q.items, p))
  }

  function PurgeF(q: Queue, now: int): Queue {
    EraseF(q, Expired(now))
  }

  /** Makes room by reporting the front, then appends with a fresh expiry. */
  function PushF(q: Queue, now: int, x: Entry): Queue
    requires 0 < q.maxLen
  {
    var e := x.(expire := q.timeout + now);
    if |q.items| == q.maxLen
    then q.(items := q.items[1..] + [e], reported := q.reported + [q.items[0]])
    else q.(items := q.items + [e])
  }

  function EnqueueF(q: Queue, now: int, x: Entry): (Queue, bool)
    requires 0 < q.maxLen
  {
    var r := PurgeF(q, now);
    if First(r.items, Twin(x)) < |r.items| then (r, false) else (PushF(r, now, x), true)
  }

  function DequeueF(q: Queue, now: int, dst: Address): (Queue, Option<Entry>) {
    var r := PurgeF(q, now);
    var i := First(r.items, To(dst));
    if i < |r.items| then (r.(items := Without(r.items, i)), Some(r.items[i])) else (r, None)
  }

  function DropF(q: Queue, now: int, dst: Address): Queue {
    EraseF(PurgeF(q, now), To(dst))
  }

  // ---------------------------------------------------------------- what the calls mean

  /** Not yet past its expiry. */
  function LiveAt(now: int): Entry -> bool {
    (e: Entry) => now <= e.expire
  }

  lemma {:induction false} SelectSame(q: seq<Entry>, p: Entry -> bool, r: Entry -> bool)
    requires forall e :: e in q ==> (p(e) <==> r(e))
    ensures Select(q, p) == Select(q, r)
    decreases |q|
  {
    if q != [] {
      SelectSame(q[..|q| - 1], p, r);
    }
  }

  /** A purge keeps what has not passed its expiry, and reports the rest. */
  lemma PurgeIs(q: Queue, now: int)
    ensures PurgeF(q, now).items == Select(q.items, LiveAt(now))
    ensures PurgeF(q, now).reported == q.reported + Select(q.items, Not(LiveAt(now)))
  {
    SelectSame(q.items, Not(Expired(now)), LiveAt(now));
    SelectSame(q.items, Expired(now), Not(LiveAt(now)));
  }

  /** Enqueue refuses a packet exactly when the same packet waits for the same destination and has not
      expired. */
  lemma EnqueueRefusesIff(q: Queue, now: int, x: Entry)
    requires 0 < q.maxLen
    ensures !EnqueueF(q, now, x).1 <==> exists e :: e in q.items && now <= e.expire && e.uid == x.uid && e.dst == x.dst
  {
    PurgeIs(q, now);
    var live := Select(q.items, LiveAt(now));
    if e :| e in q.items && now <= e.expire && e.uid == x.uid && e.dst == x.dst {
      Selected(q.items, LiveAt(now), e);
      var i :| 0 <= i < |live| && live[i] == e;
    }
    if !EnqueueF(q, now, x).1 {
      Selected(q.items, LiveAt(now), live[First(live, Twin(x))]);
    }
  }

  /** An accepted packet comes last, expires a full timeout from now, and costs a full queue its front. */
  lemma EnqueueAppends(q: Queue, now: int, x: Entry)
    requires 0 < q.maxLen && EnqueueF(q, now, x).1
    ensures var (r, live) := (EnqueueF(q, now, x).0, Select(q.items, LiveAt(now)));
            var gone := q.reported + Select(q.items, Not(LiveAt(now)));
            if |live| == q.maxLen
            then r.items == live[1..] + [x.(expire := now + q.timeout)] && r.reported == gone + [live[0]]
            else r.items == live + [x.(expire := now + q.timeout)] && r.reported == gone
  {
    PurgeIs(q, now);
  }

  /** Dequeue hands out the first packet for the destination that has not expired, if there is one. */
  lemma DequeueTakes(q: Queue, now: int, dst: Address)
    ensures var (live, answer) := (Select(q.items, LiveAt(now)), DequeueF(q, now, dst).1);
            && (answer.None? <==> forall e :: e in q.items && now <= e.expire ==> e.dst != dst)
            && (answer.Some? ==> exists i :: 0 <= i < |live| && live[i] == answer.value && live[i].dst == dst
                                             && (forall k :: 0 <= k < i ==> live[k].dst != dst)
                                             && DequeueF(q, now, dst).0.items == live[..i] + live[i + 1..])
  {
    PurgeIs(q, now);
    var live := Select(q.items, LiveAt(now));
    forall e ensures e in live <==> e in q.items && now <= e.expire {
      Selected(q.items, LiveAt(now), e);
    }
    var i := First(live, To(dst));
    if i < |live| {
      assert live[i] in live;
    } else {
      forall e | e in live ensures e.dst != dst {
        var k :| 0 <= k < |live| && live[k] == e;
      }
    }
  }

  /** DropPacketWithDst leaves the live packets for other destinations, and reports all others. */
  lemma DropReports(q: Queue, now: int, dst: Address, e: Entry)
    ensures e in DropF(q, now, dst).items <==> e in q.items && now <= e.expire && e.dst != dst
    ensures e in q.items && !(now <= e.expire && e.dst != dst) ==> e in DropF(q, now, dst).reported
  {
    PurgeIs(q, now);
    var live := Select(q.items, LiveAt(now));
    Selected(q.items, LiveAt(now), e);
    Selected(q.items, Not(LiveAt(now)), e);
    Selected(live, Not(To(dst)), e);
    Selected(live, To(dst), e);
  }

  class RequestQueue {
    var queue: seq<Entry>
    var maxLen: nat
    var queueTimeout: int
    var reported: seq<Entry>

    function Value(): Queue
      reads this
    {
      Queue(queue, maxLen, queueTimeout, reported)
    }

    constructor (maxLen: nat, routeToQueueTimeout: int)
      ensures Value() == Queue([], maxLen, routeToQueueTimeout, [])
    {
      queue, reported := [], [];
      this.maxLen, queueTimeout := maxLen, routeToQueueTimeout;
    }

    /** Calls the error callback of the entry. */
    method Drop(en: Entry)
      modifies `reported
      ensures reported == old(reported) + [en]
    {
      reported := reported + [en];
    }

    /** The notify pass: the error callback of every entry that satisfies the predicate. */
    method Report(pred: Entry -> bool)
      modifies `reported
      ensures reported == old(reported) + Select(queue, pred)
    {
      hide Select;
      SelectNone(pred);
      var i := 0;
      while i < |queue|
        invariant 0 <= i <= |queue|
        invariant reported == old(reported) + Select(queue[..i], pred)
      {
        SelectStep(queue, i, pred);
        if pred(queue[i]) {
          Drop(queue[i]);
        }
        i := i + 1;
      }
      assert queue[..i] == queue;
    }

    /** remove_if and erase: moves what stays to the front and cuts off the tail. */
    method RemoveIf(pred: Entry -> bool)
      modifies `queue
      ensures queue == Select(old(queue), Not(pred))
    {
      hide Select;
      SelectNone(Not(pred));
      ghost var was := queue;
      var end, i := 0, 0;
      while i < |queue|
        invariant 0 <= end <= i <= |queue| == |was|
        invariant queue[..end] == Select(was[..i], Not(pred))
        invariant forall k :: i <= k < |was| ==> queue[k] == was[k]
      {
        SelectStep(was, i, Not(pred));
        if !pred(queue[i]) {
          queue := queue[end := queue[i]];
          end := end + 1;
        }
        i := i + 1;
      }
      assert was[..i] == was;
      queue := queue[..end];
    }

    method Purge(now: int)
      modifies `queue, `reported
      ensures Value() == PurgeF(old(Value()), now)
    {
      Report(Expired(now));
      RemoveIf(Expired(now));
    }

    method GetSize(now: int) returns (n: nat)
      modifies `queue, `reported
      ensures Value() == PurgeF(old(Value()), now) && n == |queue|
    {
      Purge(now);
      n := |queue|;
    }

    method Enqueue(now: int, entry: Entry) returns (accepted: bool)
      requires 0 < maxLen
      modifies `queue, `reported
      ensures (Value(), accepted) == EnqueueF(old(Value()), now, entry)
    {
      Purge(now);
      var i := 0;
      while i < |queue|
        invariant 0 <= i <= |queue| && forall k :: 0 <= k < i ==> !Twin(entry)(queue[k])
      {
        if queue[i].uid == entry.uid && queue[i].dst == entry.dst {
          return false;
        }
        i := i + 1;
      }
      var e := entry.(expire := queueTimeout + now);
      if |queue| == maxLen {
        Drop(queue[0]);
        queue := queue[1..];
      }
      queue := queue + [e];
      return true;
    }

    method DropPacketWithDst(now: int, dst: Address)
      modifies `queue, `reported
      ensures Value() == DropF(old(Value()), now, dst)
    {
      Purge(now);
      Report(To(dst));
      RemoveIf(To(dst));
    }

    method Dequeue(now: int, dst: Address) returns (entry: Option<Entry>)
      modifies `queue, `reported
      ensures (Value(), entry) == DequeueF(old(Value()), now, dst)
    {
      Purge(now);
      var i := 0;
      while i < |queue|
        invariant 0 <= i <= |queue| && forall k :: 0 <= k < i ==> queue[k].dst != dst
      {
        if queue[i].dst == dst {
          entry := Some(queue[i]);
          assert First(queue, To(dst)) == i;
          queue := queue[..i] + queue[i + 1..];
          return;
        }
        i := i + 1;
      }
      entry := None;
    }

    /** Does not purge, so an expired entry can still be found. */
    method Find(dst: Address) returns (found: bool)
      ensures found <==> exists e :: e in queue && e.dst == dst
    {
      var i := 0;
      while i < |queue|
        invariant 0 <= i <= |queue| && forall k :: 0 <= k < i ==> queue[k].dst != dst
      {
        if queue[i].dst == dst {
          return true;
        }
        i := i + 1;
      }
      return false;
    }
  }
}
