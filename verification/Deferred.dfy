/**
 Packets without a route (aerorp-routing-protocol.cc): the queue, the list of addresses to retry and
 the retry timer. Whether a route is found for an address is an arbitrary answer for every attempt.
 */
module Deferred {
  import opened Wrappers
  import opened RequestQueue

  const FIRST_RETRY: nat := 500_000_000
  const RETRY: nat := 60_000_000_000

  /** `sent` are the entries given to their forward callback; `timer` is when CheckQueue fires. */
  datatype State = State(now: int, q: Queue, addresses: seq<Address>, timer: Option<int>, sent: seq<Entry>)

  // ---------------------------------------------------------------- what each call does

  /** unique() drops only repetitions next to each other. */
  function Unique(l: seq<Address>): seq<Address>
    decreases |l|
  {
    if |l| <= 1 then l
    else if l[|l| - 1] == l[|l| - 2] then Unique(l[..|l| - 1])
    else Unique(l[..|l| - 1]) + [l[|l| - 1]]
  }

  function DeferF(s: State, x: Entry): State
    requires 0 < s.q.maxLen
  {
    var q := PurgeF(s.q, s.now);
    s.(q := EnqueueF(q, s.now, x).0,
       timer := if q.items == [] then Some(s.now + FIRST_RETRY) else s.timer,
       addresses := Unique([x.dst] + s.addresses))
  }

  /** Dequeues everything for `dst`: the purge, then a partition. */
  function DrainF(s: State, dst: Address): State {
    var q := PurgeF(s.q, s.now);
    s.(q := q.(items := Select(q.items, Not(To(dst)))), sent := s.sent + Select(q.items, To(dst)))
  }

  /** The first n addresses in turn; attempt i finds a route iff found(i). */
  function TryF(s: State, n: nat, found: nat -> bool): State
    requires n <= |s.addresses|
  {
    if n == 0 then s
    else
      var r := TryF(s, n - 1, found);
      if found(n - 1) then DrainF(r, s.addresses[n - 1]) else r
  }

  /** A route was found for `d` in one of the first n attempts. */
  predicate Routed(addresses: seq<Address>, n: nat, found: nat -> bool, d: Address)
    requires n <= |addresses|
  {
    exists i :: 0 <= i < n && addresses[i] == d && found(i)
  }

  function Unrouted(l: seq<Address>, addresses: seq<Address>, found: nat -> bool): seq<Address>
    decreases |l|
  {
    if l == [] then []
    else
      var r := Unrouted(l[..|l| - 1], addresses, found);
      if Routed(addresses, |addresses|, found, l[|l| - 1]) then r else r + [l[|l| - 1]]
  }

  /** `l` without the addresses of `gone`. */
  function Rest(l: seq<Address>, gone: seq<Address>): seq<Address>
    decreases |l|
  {
    if l == [] then []
    else
      var r := Rest(l[..|l| - 1], gone);
      if l[|l| - 1] in gone then r else r + [l[|l| - 1]]
  }

  function CheckQueueF(s: State, found: nat -> bool): State {
    var r := TryF(s.(timer := None), |s.addresses|, found);
    var left := Unrouted(s.addresses, s.addresses, found);
    r.(addresses := left, timer := if left != [] then Some(s.now + RETRY) else None)
  }

  function StartF(s: State): State {
    s.(addresses := [])
  }

  class DeferredRouting {
    const queue: RequestQueue
    var queuedAddresses: seq<Address>
    var checkQueueTimer: Option<int>
    var sent: seq<Entry>

    ghost function Value(now: int): State
      reads this, queue
    {
      State(now, queue.Value(), queuedAddresses, checkQueueTimer, sent)
    }

    constructor (maxLen: nat, timeout: int)
      ensures fresh(queue)
      ensures forall now: int :: Value(now) == State(now, Queue([], maxLen, timeout, []), [], None, [])
    {
      queue := new RequestQueue(maxLen, timeout);
      queuedAddresses, checkQueueTimer, sent := [], None, [];
    }

    method Start(now: int)
      modifies this
      ensures Value(now) == StartF(old(Value(now)))
    {
      queuedAddresses := [];
    }

    /** The list's unique(). */
    method RemoveRepeats()
      modifies `queuedAddresses
      ensures queuedAddresses == Unique(old(queuedAddresses))
    {
      ghost var was := queuedAddresses;
      var kept: seq<Address> := [];
      var i := 0;
      while i < |queuedAddresses|
        invariant 0 <= i <= |queuedAddresses| && queuedAddresses == was && kept == Unique(was[..i])
      {
        assert was[..i + 1][..i] == was[..i];
        if i == 0 || queuedAddresses[i] != queuedAddresses[i - 1] {
          kept := kept + [queuedAddresses[i]];
        }
        i := i + 1;
      }
      assert was[..i] == was;
      queuedAddresses := kept;
    }

    method DeferredRouteOutput(now: int, entry: Entry)
      requires 0 < queue.maxLen
      modifies this, queue
      ensures Value(now) == DeferF(old(Value(now)), entry)
    {
      hide EnqueueF, PurgeF;
      PurgeKeepsLen(queue.Value(), now);
      var size := queue.GetSize(now);
      if size == 0 {
        checkQueueTimer := None;
        checkQueueTimer := Some(now + FIRST_RETRY);
      }
      var accepted := queue.Enqueue(now, entry);
      queuedAddresses := [entry.dst] + queuedAddresses;
      RemoveRepeats();
    }

    /** `found`: the destination is a neighbour or a best neighbour exists. */
    method SendPacketFromQueue(now: int, dst: Address, found: bool) returns (done: bool)
      modifies `sent, queue
      ensures done == found && Value(now) == if found then DrainF(old(Value(now)), dst) else old(Value(now))
    {
      if !found {
        return false;
      }
      hide Drained, DequeueF, PurgeF, Select;
      ghost var was := Value(now);
      ghost var live := PurgeF(was.q, now);
      DrainStarts(was.q, was.sent, now, dst);
      var entry := queue.Dequeue(now, dst);
      while entry.Some?
        invariant entry.Some? ==> Drained(live, was.sent, queue.Value(), sent + [entry.value], now, dst)
        invariant entry.None? ==> Done(live, was.sent, queue.Value(), sent, dst)
        invariant queuedAddresses == was.addresses && checkQueueTimer == was.timer
        decreases |queue.queue|, entry.Some?
      {
        sent := sent + [entry.value];
        DrainStep(live, was.sent, queue.Value(), sent, now, dst);
        entry := queue.Dequeue(now, dst);
      }
      return true;
    }

    method CheckQueue(now: int, found: nat -> bool)
      modifies this, queue
      ensures Value(now) == CheckQueueF(old(Value(now)), found)
    {
      hide DrainF;
      checkQueueTimer := None;
      ghost var was := Value(now);
      var toRemove: seq<Address> := [];
      var i := 0;
      while i < |queuedAddresses|
        invariant 0 <= i <= |queuedAddresses| && queuedAddresses == was.addresses && checkQueueTimer == None
        invariant Value(now) == TryF(was, i, found)
        invariant forall d :: d in toRemove <==> Routed(was.addresses, i, found, d)
      {
        var done := SendPacketFromQueue(now, queuedAddresses[i], found(i));
        if done {
          toRemove := [queuedAddresses[i]] + toRemove;
        }
        i := i + 1;
      }
      RestIsUnrouted(queuedAddresses, toRemove, was.addresses, found);
      RemoveAll(toRemove);
      if queuedAddresses != [] {
        checkQueueTimer := Some(now + RETRY);
      }
    }

    /** The list's remove() for every address of `toRemove`. */
    method RemoveAll(toRemove: seq<Address>)
      modifies `queuedAddresses
      ensures queuedAddresses == Rest(old(queuedAddresses), toRemove)
    {
      RestNone(queuedAddresses);
      var i := 0;
      while i < |toRemove|
        invariant 0 <= i <= |toRemove| && queuedAddresses == Rest(old(queuedAddresses), toRemove[..i])
      {
        RestStep(old(queuedAddresses), toRemove, i);
        queuedAddresses := Rest(queuedAddresses, [toRemove[i]]);
        i := i + 1;
      }
      assert toRemove[..i] == toRemove;
    }
  }

  // ---------------------------------------------------------------- lemmas for the loops

  lemma PurgeKeepsLen(q: Queue, now: int)
    ensures PurgeF(q, now).maxLen == q.maxLen
  {
  }

  lemma {:induction false} RestNone(l: seq<Address>)
    ensures Rest(l, []) == l
    decreases |l|
  {
    if l != [] {
      RestNone(l[..|l| - 1]);
    }
  }

  lemma {:induction false} RestStep(l: seq<Address>, gone: seq<Address>, i: nat)
    requires i < |gone|
    ensures Rest(Rest(l, gone[..i]), [gone[i]]) == Rest(l, gone[..i + 1])
    decreases |l|
  {
    if l != [] {
      var n := |l| - 1;
      RestStep(l[..n], gone, i);
      var r := Rest(l[..n], gone[..i]);
      assert gone[..i + 1] == gone[..i] + [gone[i]];
      assert (r + [l[n]])[..|r|] == r;
    }
  }

  lemma {:induction false} RestIsUnrouted(l: seq<Address>, gone: seq<Address>, addresses: seq<Address>,
                                          found: nat -> bool)
    requires forall d :: d in gone <==> Routed(addresses, |addresses|, found, d)
    ensures Rest(l, gone) == Unrouted(l, addresses, found)
    decreases |l|
  {
    if l != [] {
      RestIsUnrouted(l[..|l| - 1], gone, addresses, found);
    }
  }

  predicate Fresh(q: Queue, now: int) {
    forall e :: e in q.items ==> now <= e.expire
  }

  lemma PurgeIsFresh(q: Queue, now: int)
    ensures Fresh(PurgeF(q, now), now)
    ensures Fresh(q, now) ==> PurgeF(q, now) == q
  {
    forall e | e in PurgeF(q, now).items ensures now <= e.expire {
      Selected(q.items, Not(Expired(now)), e);
    }
    if Fresh(q, now) {
      SelectNothing(q.items, Expired(now));
    }
  }

  lemma TakeAt(items: seq<Entry>, k: nat, p: Entry -> bool)
    requires k < |items| && p(items[k]) && Select(items[..k], p) == []
    ensures Select(items, p) == [items[k]] + Select(Without(items, k), p)
    ensures Select(items, Not(p)) == Select(Without(items, k), Not(p))
  {
    hide Select, Without;
    SelectAt(items, k, p);
    SelectAt(items, k, Not(p));
    assert !Not(p)(items[k]);
  }

  lemma TakeFirst(items: seq<Entry>, p: Entry -> bool)
    ensures var k := First(items, p);
            if k < |items| then
              && Select(items, p) == [items[k]] + Select(Without(items, k), p)
              && Select(items, Not(p)) == Select(Without(items, k), Not(p))
            else Select(items, p) == [] && Select(items, Not(p)) == items
  {
    hide Select, Without;
    var k := First(items, p);
    SelectNothing(items[..k], p);
    if k < |items| {
      TakeAt(items, k, p);
    } else {
      assert items[..k] == items;
    }
  }

  lemma DequeueIsFirst(q: Queue, now: int, dst: Address)
    ensures var r, (q1, e) := PurgeF(q, now), DequeueF(q, now, dst);
            Fresh(r, now) && q1 == r.(items := q1.items) &&
            if e.Some? then
              && Select(r.items, To(dst)) == [e.value] + Select(q1.items, To(dst))
              && Select(r.items, Not(To(dst))) == Select(q1.items, Not(To(dst)))
              && |q1.items| < |r.items| && Fresh(q1, now)
            else q1 == r && Select(r.items, To(dst)) == [] && Select(r.items, Not(To(dst))) == r.items
  {
    hide Select;
    PurgeIsFresh(q, now);
    TakeFirst(PurgeF(q, now).items, To(dst));
  }

  /** Where the drain stands: `sent` are entries for `dst` taken so far, in order; the rest is untouched. */
  predicate Drained(live: Queue, before: seq<Entry>, q: Queue, sent: seq<Entry>, now: int, dst: Address) {
    && sent + Select(q.items, To(dst)) == before + Select(live.items, To(dst))
    && Select(q.items, Not(To(dst))) == Select(live.items, Not(To(dst)))
    && q == live.(items := q.items) && Fresh(q, now)
  }

  predicate Done(live: Queue, before: seq<Entry>, q: Queue, sent: seq<Entry>, dst: Address) {
    q == live.(items := Select(live.items, Not(To(dst)))) && sent == before + Select(live.items, To(dst))
  }

  lemma DrainStarts(q: Queue, sent: seq<Entry>, now: int, dst: Address)
    ensures var live, (q1, e) := PurgeF(q, now), DequeueF(q, now, dst);
            if e.Some? then Drained(live, sent, q1, sent + [e.value], now, dst) else Done(live, sent, q1, sent, dst)
  {
    hide Select, DequeueF, PurgeF;
    DequeueIsFirst(q, now, dst);
  }

  lemma DrainStep(live: Queue, before: seq<Entry>, q: Queue, sent: seq<Entry>, now: int, dst: Address)
    requires Drained(live, before, q, sent, now, dst)
    ensures var (q1, e) := DequeueF(q, now, dst);
            if e.Some? then Drained(live, before, q1, sent + [e.value], now, dst) && |q1.items| < |q.items|
            else Done(live, before, q1, sent, dst) && |q1.items| <= |q.items|
  {
    hide Select, DequeueF, PurgeF;
    PurgeIsFresh(q, now);
    DequeueIsFirst(q, now, dst);
    var (q1, e) := DequeueF(q, now, dst);
    if e.Some? {
      assert sent + [e.value] + Select(q1.items, To(dst)) == sent + ([e.value] + Select(q1.items, To(dst)));
    }
  }
}
