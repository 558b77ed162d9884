/**
 The MAC transmit queue (tdma-mac-queue.cc): a FIFO whose items expire `maxDelay` after they
 were tagged on arrival.

 `Fifo` is the abstract value of one queue object and the functions on it say what each call
 does. `Ledger` is an independent reference: it never forgets an accepted item and gives each
 one exactly one fate. The main result, `QueueRefinesLedger`, runs both side by side.
 */
module MacQueue {
  import opened Wrappers

  /** A pointer to a packet: its address, by which Remove compares, and the size found there. */
  datatype Packet = Packet(ptr: nat, size: nat)
  datatype WifiMacHeader = WifiMacHeader(addr1: nat, addr2: nat, addr3: nat)
  datatype Item = Item(packet: Packet, hdr: WifiMacHeader, tstamp: int)

  /** `drops` is the sequence of packets handed to the transmit-drop callback so far. */
  datatype Fifo = Fifo(items: seq<Item>, size: int, maxSize: nat, maxDelay: int,
                       count: nat, drops: seq<Packet>)

  // ---------------------------------------------------------------- what each call does

  predicate Alive(i: Item, delay: int, now: int) {
    i.tstamp + delay > now
  }

  function Live(q: seq<Item>, delay: int, now: int): seq<Item> {
    if q == [] then []
    else if Alive(q[0], delay, now) then [q[0]] + Live(q[1..], delay, now)
    else Live(q[1..], delay, now)
  }

  function Dead(q: seq<Item>, delay: int, now: int): seq<Item> {
    if q == [] then []
    else if Alive(q[0], delay, now) then Dead(q[1..], delay, now)
    else [q[0]] + Dead(q[1..], delay, now)
  }

  function Packets(q: seq<Item>): (r: seq<Packet>)
    ensures |r| == |q|
  {
    seq(|q|, i requires 0 <= i < |q| => q[i].packet)
  }

  function CleanupF(f: Fifo, now: int): Fifo {
    var dead := Dead(f.items, f.maxDelay, now);
    f.(items := Live(f.items, f.maxDelay, now), size := f.size - |dead|,
       count := f.count + |dead|, drops := f.drops + Packets(dead))
  }

  function EnqueueF(f: Fifo, now: int, p: Packet, h: WifiMacHeader): (Fifo, bool) {
    var c := CleanupF(f, now);
    if c.size == c.maxSize then (c, false)
    else (c.(items := c.items + [Item(p, h, now)], size := c.size + 1), true)
  }

  function DequeueF(f: Fifo, now: int): (Fifo, Option<Item>) {
    var c := CleanupF(f, now);
    if c.items == [] then (c, None)
    else (c.(items := c.items[1..], size := c.size - 1), Some(c.items[0]))
  }

  function PeekF(f: Fifo, now: int): (Fifo, Option<Item>) {
    var c := CleanupF(f, now);
    (c, if c.items == [] then None else Some(c.items[0]))
  }

  /** The first position holding packet `p`, or the length when there is none. */
  function FirstOf(q: seq<Item>, p: Packet): (k: nat)
    ensures k <= |q|
    ensures k < |q| ==> q[k].packet.ptr == p.ptr
    ensures forall j :: 0 <= j < k ==> q[j].packet.ptr != p.ptr
  {
    if q == [] || q[0].packet.ptr == p.ptr then 0 else 1 + FirstOf(q[1..], p)
  }

  function RemoveF(f: Fifo, p: Packet): (Fifo, bool) {
    var k := FirstOf(f.items, p);
    if k == |f.items| then (f, false)
    else (f.(items := f.items[..k] + f.items[k + 1..], size := f.size - 1), true)
  }

  function FlushF(f: Fifo): Fifo {
    f.(items := [], size := 0)
  }

  lemma CleanupTwice(f: Fifo, now: int)
    ensures CleanupF(CleanupF(f, now), now) == CleanupF(f, now)
  {
    LiveIsLive(f.items, f.maxDelay, now);
    assert Packets([]) == [];
  }

  lemma {:induction false} LiveIsLive(q: seq<Item>, delay: int, now: int)
    ensures Live(Live(q, delay, now), delay, now) == Live(q, delay, now)
    ensures Dead(Live(q, delay, now), delay, now) == []
  {
    if q != [] {
      LiveIsLive(q[1..], delay, now);
      if Alive(q[0], delay, now) {
        assert Live(q, delay, now)[1..] == Live(q[1..], delay, now);
      }
    }
  }

  lemma {:induction false} LiveConcat(a: seq<Item>, b: seq<Item>, delay: int, now: int)
    ensures Live(a + b, delay, now) == Live(a, delay, now) + Live(b, delay, now)
  {
    if a == [] {
      assert a + b == b;
    } else {
      assert (a + b)[1..] == a[1..] + b;
      LiveConcat(a[1..], b, delay, now);
    }
  }

  lemma {:induction false} LiveFrom(a: seq<Item>, delay: int, now: int)
    ensures |Live(a, delay, now)| <= |a|
    ensures forall i :: i in Live(a, delay, now) ==> i in a && Alive(i, delay, now)
  {
    if a != [] {
      LiveFrom(a[1..], delay, now);
    }
  }

  // ---------------------------------------------------------------- the queue object

  /** The queue object itself. `drops` records the arguments of m_txDropCallback. */
  class TdmaMacQueue {
    var queue: seq<Item>
    var size: int
    var maxSize: nat
    var maxDelay: int
    var count: nat
    var drops: seq<Packet>

    function Value(): Fifo
      reads this
    {
      Fifo(queue, size, maxSize, maxDelay, count, drops)
    }

    constructor (maxSize: nat, maxDelay: int)
      ensures Value() == Fifo([], 0, maxSize, maxDelay, 0, [])
    {
      queue, size, count, drops := [], 0, 0, [];
      this.maxSize, this.maxDelay := maxSize, maxDelay;
    }

    method SetMaxSize(n: nat)
      modifies this
      ensures Value() == old(Value()).(maxSize := n)
    {
      maxSize := n;
    }

    method SetMaxDelay(d: int)
      modifies this
      ensures Value() == old(Value()).(maxDelay := d)
    {
      maxDelay := d;
    }

    method Cleanup(now: int)
      modifies this
      ensures Value() == CleanupF(old(Value()), now)
    {
      if queue == [] {
        return;
      }
      var n := 0;
      var i := 0;
      ghost var was := queue;
      ghost var seen := 0;
      while i < |queue|
        invariant 0 <= seen <= |was| && 0 <= i <= |queue|
        invariant queue[..i] == Live(was[..seen], maxDelay, now)
        invariant queue[i..] == was[seen..]
        invariant drops == old(drops) + Packets(Dead(was[..seen], maxDelay, now))
        invariant n == |Dead(was[..seen], maxDelay, now)| && count == old(count) + n
        invariant size == old(size) && maxSize == old(maxSize) && maxDelay == old(maxDelay)
        decreases |queue| - i
      {
        assert queue[i] == queue[i..][0] == was[seen];
        SplitLast(was, seen, maxDelay, now);
        assert queue[i + 1..] == queue[i..][1..] == was[seen + 1..];
        if queue[i].tstamp + maxDelay > now {
          assert queue[..i + 1] == queue[..i] + [queue[i]];
          i := i + 1;
        } else {
          count := count + 1;
          drops := drops + [queue[i].packet];
          queue := queue[..i] + queue[i + 1..];
          n := n + 1;
        }
        seen := seen + 1;
      }
      assert queue[..i] == queue;
      assert seen == |was| by {
        assert |queue[i..]| == |was[seen..]|;
      }
      assert was[..seen] == was;
      size := size - n;
    }

    method Enqueue(now: int, packet: Packet, hdr: WifiMacHeader) returns (accepted: bool)
      modifies this
      ensures (Value(), accepted) == EnqueueF(old(Value()), now, packet, hdr)
    {
      Cleanup(now);
      if size == maxSize {
        return false;
      }
      queue := queue + [Item(packet, hdr, now)];
      size := size + 1;
      return true;
    }

    method Dequeue(now: int) returns (r: Option<Item>)
      modifies this
      ensures (Value(), r) == DequeueF(old(Value()), now)
    {
      Cleanup(now);
      if queue != [] {
        r := Some(queue[0]);
        queue := queue[1..];
        size := size - 1;
      } else {
        r := None;
      }
    }

    method Peek(now: int) returns (r: Option<Item>)
      modifies this
      ensures (Value(), r) == PeekF(old(Value()), now)
    {
      Cleanup(now);
      r := if queue != [] then Some(queue[0]) else None;
    }

    method IsEmpty(now: int) returns (r: bool)
      modifies this
      ensures Value() == CleanupF(old(Value()), now) && r == (queue == [])
    {
      Cleanup(now);
      r := queue == [];
    }

    method GetSize() returns (r: int)
      ensures r == size
    {
      r := size;
    }

    method Flush()
      modifies this
      ensures Value() == FlushF(old(Value()))
    {
      queue := [];
      size := 0;
    }

    method Remove(packet: Packet) returns (r: bool)
      modifies this
      ensures (Value(), r) == RemoveF(old(Value()), packet)
    {
      var it := 0;
      while it < |queue|
        invariant 0 <= it <= |queue|
        invariant forall j :: 0 <= j < it ==> queue[j].packet.ptr != packet.ptr
      {
        if queue[it].packet.ptr == packet.ptr {
          queue := queue[..it] + queue[it + 1..];
          size := size - 1;
          return true;
        }
        it := it + 1;
      }
      return false;
    }
  }

  // ---------------------------------------------------------------- cleanup

  lemma {:induction false} SplitLast(q: seq<Item>, k: nat, delay: int, now: int)
    requires k < |q|
    ensures Live(q[..k + 1], delay, now)
         == Live(q[..k], delay, now) + (if Alive(q[k], delay, now) then [q[k]] else [])
    ensures Dead(q[..k + 1], delay, now)
         == Dead(q[..k], delay, now) + (if Alive(q[k], delay, now) then [] else [q[k]])
  {
    if k == 0 {
      assert q[..1][1..] == [] && q[..0] == [];
    } else {
      assert q[..k + 1][1..] == q[1..][..k] && q[..k][1..] == q[1..][..k - 1];
      SplitLast(q[1..], k - 1, delay, now);
    }
  }

  predicate Stamped(q: seq<Item>) {
    forall i, j :: 0 <= i < j < |q| ==> q[i].tstamp <= q[j].tstamp
  }

  /** If exactly the first k items have expired, they are what cleanup erases. */
  lemma {:induction false} CutAt(q: seq<Item>, k: nat, delay: int, now: int)
    requires k <= |q|
    requires forall i :: 0 <= i < k ==> !Alive(q[i], delay, now)
    requires forall i :: k <= i < |q| ==> Alive(q[i], delay, now)
    ensures Dead(q, delay, now) == q[..k] && Live(q, delay, now) == q[k..]
  {
    if q != [] {
      var t := q[1..];
      if k == 0 {
        CutAt(t, 0, delay, now);
        assert q == [q[0]] + t;
      } else {
        CutAt(t, k - 1, delay, now);
        assert [q[0]] + t[..k - 1] == q[..k] && t[k - 1..] == q[k..];
      }
    }
  }

  /** How many items at the front of the queue have expired. */
  function Front(q: seq<Item>, delay: int, now: int): (k: nat)
    ensures k <= |q|
    ensures forall i :: 0 <= i < k ==> !Alive(q[i], delay, now)
    ensures k < |q| ==> Alive(q[k], delay, now)
  {
    if q == [] || Alive(q[0], delay, now) then 0 else 1 + Front(q[1..], delay, now)
  }

  /** On a queue in arrival order, cleanup erases exactly the expired prefix. */
  lemma CleanupCutsPrefix(q: seq<Item>, delay: int, now: int)
    requires Stamped(q)
    ensures var k := |Dead(q, delay, now)|;
            k <= |q| && Dead(q, delay, now) == q[..k] && Live(q, delay, now) == q[k..]
            && (forall i :: 0 <= i < |q| ==> (Alive(q[i], delay, now) <==> k <= i))
  {
    hide Dead, Live;
    CutAt(q, Front(q, delay, now), delay, now);
  }

  // ---------------------------------------------------------------- the reference

  /** What finally happened to an accepted item. */
  datatype Fate = Waiting | Dequeued | Expired | Removed | Flushed
  datatype Entry = Entry(item: Item, fate: Fate)
  type Ledger = seq<Entry>

  /** The items of one fate, in order of acceptance. */
  function With(log: Ledger, fate: Fate): seq<Item> {
    if log == [] then []
    else if log[0].fate == fate then [log[0].item] + With(log[1..], fate)
    else With(log[1..], fate)
  }

  function Items(log: Ledger): (r: seq<Item>)
    ensures |r| == |log|
  {
    seq(|log|, i requires 0 <= i < |log| => log[i].item)
  }

  /** Every waiting item whose time is up expires. */
  function Expire(log: Ledger, delay: int, now: int): (r: Ledger)
    ensures |r| == |log|
    ensures forall i :: 0 <= i < |log| ==>
      r[i] == if log[i].fate == Waiting && !Alive(log[i].item, delay, now)
              then log[i].(fate := Expired) else log[i]
  {
    seq(|log|, i requires 0 <= i < |log| =>
      if log[i].fate == Waiting && !Alive(log[i].item, delay, now)
      then log[i].(fate := Expired) else log[i])
  }

  /** The oldest waiting item, if any, gets fate `fate`. */
  function Oldest(log: Ledger): (k: nat)
    ensures k <= |log|
    ensures k < |log| ==> log[k].fate == Waiting
    ensures forall j :: 0 <= j < k ==> log[j].fate != Waiting
  {
    if log == [] || log[0].fate == Waiting then 0 else 1 + Oldest(log[1..])
  }

  function OldestOf(log: Ledger, p: Packet): (k: nat)
    ensures k <= |log|
    ensures k < |log| ==> log[k].fate == Waiting && log[k].item.packet.ptr == p.ptr
    ensures forall j :: 0 <= j < k ==> !(log[j].fate == Waiting && log[j].item.packet.ptr == p.ptr)
  {
    if log == [] || (log[0].fate == Waiting && log[0].item.packet.ptr == p.ptr) then 0
    else 1 + OldestOf(log[1..], p)
  }

  function Settle(log: Ledger, k: nat, fate: Fate): Ledger {
    if k < |log| then log[k := log[k].(fate := fate)] else log
  }

  function FlushAll(log: Ledger): Ledger {
    seq(|log|, i requires 0 <= i < |log| =>
      if log[i].fate == Waiting then log[i].(fate := Flushed) else log[i])
  }

  datatype Op =
    | Enqueue(p: Packet, h: WifiMacHeader)
    | Dequeue
    | Peek
    | IsEmpty
    | Remove(q: Packet)
    | Flush
    | SetMaxSize(n: nat)
    | SetMaxDelay(d: int)

  datatype Call = Call(now: int, op: Op)

  /** One call on the ideal expiring FIFO. */
  function Ideal(log: Ledger, maxSize: nat, maxDelay: int, c: Call): Ledger {
    var e := Expire(log, maxDelay, c.now);
    match c.op
    case Enqueue(p, h) =>
      if |With(e, Waiting)| == maxSize then e else e + [Entry(Item(p, h, c.now), Waiting)]
    case Dequeue => Settle(e, Oldest(e), Dequeued)
    case Peek => e
    case IsEmpty => e
    case Remove(p) => Settle(log, OldestOf(log, p), Removed)
    case Flush => FlushAll(log)
    case SetMaxSize(_) => log
    case SetMaxDelay(_) => log
  }

  /** What a caller observes of one run: the queue, and the packets each call answered with. */
  datatype Run = Run(f: Fifo, accepted: seq<Item>, got: seq<Item>)

  function Apply(r: Run, c: Call): Run {
    match c.op
    case Enqueue(p, h) =>
      var (f, ok) := EnqueueF(r.f, c.now, p, h);
      r.(f := f, accepted := if ok then r.accepted + [Item(p, h, c.now)] else r.accepted)
    case Dequeue =>
      var (f, i) := DequeueF(r.f, c.now);
      r.(f := f, got := if i.Some? then r.got + [i.value] else r.got)
    case Peek => r.(f := PeekF(r.f, c.now).0)
    case IsEmpty => r.(f := CleanupF(r.f, c.now))
    case Remove(p) => r.(f := RemoveF(r.f, p).0)
    case Flush => r.(f := FlushF(r.f))
    case SetMaxSize(n) => r.(f := r.f.(maxSize := n))
    case SetMaxDelay(d) => r.(f := r.f.(maxDelay := d))
  }

  function ApplyAll(r: Run, cs: seq<Call>): Run
    decreases |cs|
  {
    if cs == [] then r else ApplyAll(Apply(r, cs[0]), cs[1..])
  }

  function IdealAll(log: Ledger, maxSize: nat, maxDelay: int, cs: seq<Call>): Ledger
    decreases |cs|
  {
    if cs == [] then log
    else
      IdealAll(Ideal(log, maxSize, maxDelay, cs[0]),
                if cs[0].op.SetMaxSize? then cs[0].op.n else maxSize,
                if cs[0].op.SetMaxDelay? then cs[0].op.d else maxDelay, cs[1..])
  }

  predicate Monotone(from: int, cs: seq<Call>)
    decreases |cs|
  {
    cs == [] || (from <= cs[0].now && Monotone(cs[0].now, cs[1..]))
  }

  /** The clock after the last call. */
  function End(from: int, cs: seq<Call>): int {
    if cs == [] then from else cs[|cs| - 1].now
  }

  /** No dequeued or expired item was accepted after one that still waits. */
  predicate InOrder(log: Ledger) {
    forall i, j :: 0 <= i < j < |log| && log[i].fate == Waiting
      ==> log[j].fate != Dequeued && log[j].fate != Expired
  }

  ghost predicate Agree(r: Run, log: Ledger, clock: int) {
    && r.f.items == With(log, Waiting)
    && r.f.size == |r.f.items|
    && r.accepted == Items(log)
    && r.got == With(log, Dequeued)
    && r.f.drops == Packets(With(log, Expired))
    && r.f.count == |r.f.drops|
    && Stamped(Items(log))
    && (forall i :: 0 <= i < |log| ==> log[i].item.tstamp <= clock)
    && InOrder(log)
  }

  lemma AgreeLater(r: Run, log: Ledger, clock: int, now: int)
    requires Agree(r, log, clock) && clock <= now
    ensures Agree(r, log, now)
  {
  }

  // ---------------------------------------------------------------- refinement proof

  lemma {:induction false} WithConcat(a: Ledger, b: Ledger, fate: Fate)
    ensures With(a + b, fate) == With(a, fate) + With(b, fate)
  {
    if a == [] {
      assert a + b == b;
    } else {
      assert (a + b)[0] == a[0] && (a + b)[1..] == a[1..] + b;
      WithConcat(a[1..], b, fate);
    }
  }

  lemma {:induction false} WithNone(a: Ledger, fate: Fate)
    requires forall i :: 0 <= i < |a| ==> a[i].fate != fate
    ensures With(a, fate) == []
  {
    if a != [] {
      assert forall i :: 0 <= i < |a[1..]| ==> a[1..][i] == a[i + 1];
      WithNone(a[1..], fate);
    }
  }

  /** A filtered ledger inherits arrival order, and its members come from the ledger. */
  lemma {:induction false} WithStamped(log: Ledger, fate: Fate)
    requires Stamped(Items(log))
    ensures Stamped(With(log, fate))
    ensures forall x :: x in With(log, fate) ==> exists i :: 0 <= i < |log| && log[i].item == x
  {
    if log != [] {
      var t := log[1..];
      assert forall i :: 0 <= i < |t| ==> t[i] == log[i + 1] && Items(t)[i] == Items(log)[i + 1];
      WithStamped(t, fate);
      forall x | x in With(t, fate) ensures exists i :: 0 <= i < |log| && log[i].item == x {
        var i :| 0 <= i < |t| && t[i].item == x;
        assert log[i + 1].item == x;
      }
      assert forall x :: x in With(t, fate) ==> log[0].item.tstamp <= x.tstamp by {
        forall x | x in With(t, fate) ensures log[0].item.tstamp <= x.tstamp {
          var i :| 0 <= i < |t| && t[i].item == x;
          assert Items(log)[0] == log[0].item && Items(log)[i + 1] == x;
        }
      }
    }
  }

  /** Once a waiting item is alive, everything accepted after it is alive too. */
  lemma AliveFromHere(log: Ledger, delay: int, now: int)
    requires Stamped(Items(log)) && log != [] && Alive(log[0].item, delay, now)
    ensures Expire(log, delay, now) == log
  {
    forall i | 0 <= i < |log| ensures Alive(log[i].item, delay, now) {
      assert Items(log)[0].tstamp <= Items(log)[i].tstamp;
    }
  }

  lemma {:induction false} ExpireWaiting(log: Ledger, delay: int, now: int)
    ensures With(Expire(log, delay, now), Waiting) == Live(With(log, Waiting), delay, now)
    ensures With(Expire(log, delay, now), Dequeued) == With(log, Dequeued)
  {
    if log != [] {
      ExpireWaiting(log[1..], delay, now);
      assert Expire(log, delay, now)[1..] == Expire(log[1..], delay, now);
      if log[0].fate == Waiting {
        assert With(log, Waiting)[1..] == With(log[1..], Waiting);
      }
    }
  }

  lemma {:induction false} ExpireExpired(log: Ledger, delay: int, now: int)
    requires InOrder(log) && Stamped(Items(log))
    ensures With(Expire(log, delay, now), Expired)
         == With(log, Expired) + Dead(With(log, Waiting), delay, now)
  {
    if log != [] {
      var t, e := log[1..], Expire(log, delay, now);
      assert Items(t) == Items(log)[1..];
      ExpireExpired(t, delay, now);
      assert e[1..] == Expire(t, delay, now);
      var dead := Dead(With(t, Waiting), delay, now);
      if log[0].fate == Waiting {
        assert With(log, Waiting)[1..] == With(t, Waiting);
        WithNone(t, Expired);
        assert With(log, Expired) == [];
        if Alive(log[0].item, delay, now) {
          AliveFromHere(log, delay, now);
          assert e[1..] == t && dead == [];
        } else {
          assert With(e, Expired) == [log[0].item] + dead;
        }
      } else if log[0].fate == Expired {
        assert [log[0].item] + (With(t, Expired) + dead) == ([log[0].item] + With(t, Expired)) + dead;
      }
    }
  }

  /** Expiring on the ledger is filtering on the waiting list, and keeps the order of fates. */
  lemma ExpireFilters(log: Ledger, delay: int, now: int)
    requires InOrder(log) && Stamped(Items(log))
    ensures var e := Expire(log, delay, now);
            With(e, Waiting) == Live(With(log, Waiting), delay, now)
            && With(e, Expired) == With(log, Expired) + Dead(With(log, Waiting), delay, now)
            && With(e, Dequeued) == With(log, Dequeued)
            && InOrder(e) && Items(e) == Items(log)
  {
    var e := Expire(log, delay, now);
    assert Items(e) == Items(log);
    ExpireWaiting(log, delay, now);
    ExpireExpired(log, delay, now);
    forall i, j | 0 <= i < j < |e| && e[i].fate == Waiting
      ensures e[j].fate != Dequeued && e[j].fate != Expired
    {
      assert log[i].fate == Waiting && Alive(log[i].item, delay, now);
      assert Items(log)[i].tstamp <= Items(log)[j].tstamp;
    }
  }

  lemma SettleSplits(log: Ledger, k: nat, fate: Fate, g: Fate)
    requires k < |log|
    ensures With(log, g)
         == With(log[..k], g) + (if g == log[k].fate then [log[k].item] else []) + With(log[k + 1..], g)
    ensures With(Settle(log, k, fate), g)
         == With(log[..k], g) + (if g == fate then [log[k].item] else []) + With(log[k + 1..], g)
  {
    var a, b, s := log[..k], log[k + 1..], Settle(log, k, fate);
    assert log == a + [log[k]] + b && s == a + [s[k]] + b;
    hide With, Settle;
    WithAround(a, log[k], b, g);
    WithAround(a, s[k], b, g);
  }

  lemma WithAround(a: Ledger, x: Entry, b: Ledger, g: Fate)
    ensures With(a + [x] + b, g) == With(a, g) + (if g == x.fate then [x.item] else []) + With(b, g)
  {
    assert [x][1..] == [];
    WithConcat(a + [x], b, g);
    WithConcat(a, [x], g);
  }

  /** The first waiting entry holding `p` is the first such item of the waiting list. */
  lemma {:induction false} FirstOfIsOldestOf(log: Ledger, p: Packet)
    ensures var k, w := OldestOf(log, p), With(log, Waiting);
            if k == |log| then FirstOf(w, p) == |w|
            else FirstOf(w, p) == |With(log[..k], Waiting)| && FirstOf(w, p) < |w|
  {
    if log != [] {
      var t := log[1..];
      var k := OldestOf(log, p);
      if log[0].fate == Waiting && log[0].item.packet.ptr == p.ptr {
        assert log[..0] == [];
      } else {
        FirstOfIsOldestOf(t, p);
        assert k == 1 + OldestOf(t, p);
        if k < |log| {
          assert log[..k][1..] == t[..k - 1];
        }
        if log[0].fate == Waiting {
          assert With(log, Waiting)[1..] == With(t, Waiting);
        }
      }
    }
  }

  lemma {:induction false} FlushEmpties(log: Ledger)
    ensures With(FlushAll(log), Waiting) == []
    ensures With(FlushAll(log), Dequeued) == With(log, Dequeued)
    ensures With(FlushAll(log), Expired) == With(log, Expired)
    ensures Items(FlushAll(log)) == Items(log)
  {
    if log != [] {
      FlushEmpties(log[1..]);
      assert FlushAll(log)[1..] == FlushAll(log[1..]);
    }
    assert Items(FlushAll(log)) == Items(log);
  }

  /** Expiry, the common first half of most calls, keeps the two sides in agreement. */
  lemma CleanupAgrees(r: Run, log: Ledger, clock: int, now: int)
    requires Agree(r, log, clock) && clock <= now
    ensures Agree(r.(f := CleanupF(r.f, now)), Expire(log, r.f.maxDelay, now), now)
  {
    ExpireFilters(log, r.f.maxDelay, now);
    WithStamped(log, Waiting);
    CleanupCutsPrefix(r.f.items, r.f.maxDelay, now);
    var dead := Dead(r.f.items, r.f.maxDelay, now);
    assert Packets(With(log, Expired) + dead) == Packets(With(log, Expired)) + Packets(dead);
  }

  lemma EnqueueAgrees(r: Run, e: Ledger, now: int, i: Item)
    requires Agree(r, e, now) && i.tstamp == now
    ensures Agree(r.(f := r.f.(items := r.f.items + [i], size := r.f.size + 1), accepted := r.accepted + [i]),
                  e + [Entry(i, Waiting)], now)
  {
    var n := Entry(i, Waiting);
    assert [n][1..] == [];
    WithConcat(e, [n], Waiting);
    WithConcat(e, [n], Dequeued);
    WithConcat(e, [n], Expired);
    assert Items(e + [n]) == Items(e) + [i];
  }

  lemma OldestExists(e: Ledger)
    requires With(e, Waiting) != []
    ensures Oldest(e) < |e|
  {
    if Oldest(e) == |e| {
      WithNone(e, Waiting);
    }
  }

  /** What giving the oldest waiting entry the fate Dequeued does to the three lists. */
  lemma TakeOldest(e: Ledger, k: nat, s: Ledger)
    requires InOrder(e) && k == Oldest(e) < |e| && s == Settle(e, k, Dequeued)
    ensures With(e, Waiting) == [e[k].item] + With(s, Waiting)
    ensures With(s, Dequeued) == With(e, Dequeued) + [e[k].item]
    ensures With(s, Expired) == With(e, Expired)
  {
    assert With(e, Waiting) == [e[k].item] + With(s, Waiting) by {
      SettleSplits(e, k, Dequeued, Waiting);
      WithNone(e[..k], Waiting);
    }
    assert With(s, Dequeued) == With(e, Dequeued) + [e[k].item] by {
      SettleSplits(e, k, Dequeued, Dequeued);
      WithNone(e[k + 1..], Dequeued);
    }
    assert With(s, Expired) == With(e, Expired) by {
      SettleSplits(e, k, Dequeued, Expired);
    }
  }

  lemma TakeKeepsOrder(e: Ledger)
    requires InOrder(e)
    ensures InOrder(Settle(e, Oldest(e), Dequeued))
  {
    var k, s := Oldest(e), Settle(e, Oldest(e), Dequeued);
    forall i, j | 0 <= i < j < |s| && s[i].fate == Waiting
      ensures s[j].fate != Dequeued && s[j].fate != Expired
    {
      assert i > k && e[i].fate == Waiting;
    }
  }

  lemma TakeAgrees(r: Run, e: Ledger, now: int)
    requires Agree(r, e, now) && r.f.items != []
    ensures Agree(r.(f := r.f.(items := r.f.items[1..], size := r.f.size - 1), got := r.got + [r.f.items[0]]),
                  Settle(e, Oldest(e), Dequeued), now)
  {
    OldestExists(e);
    var s := Settle(e, Oldest(e), Dequeued);
    TakeOldest(e, Oldest(e), s);
    TakeKeepsOrder(e);
    assert r.f.items[0] == e[Oldest(e)].item && r.f.items[1..] == With(s, Waiting);
    assert Items(s) == Items(e);
    forall i | 0 <= i < |s| ensures s[i].item.tstamp <= now {
      assert s[i].item == e[i].item;
    }
  }

  lemma RemoveAgrees(r: Run, log: Ledger, clock: int, p: Packet)
    requires Agree(r, log, clock)
    ensures Agree(r.(f := RemoveF(r.f, p).0), Settle(log, OldestOf(log, p), Removed), clock)
  {
    var k := OldestOf(log, p);
    FirstOfIsOldestOf(log, p);
    if k < |log| {
      SettleSplits(log, k, Removed, Waiting);
      SettleSplits(log, k, Removed, Dequeued);
      SettleSplits(log, k, Removed, Expired);
      assert Items(Settle(log, k, Removed)) == Items(log);
      var a, b := With(log[..k], Waiting), With(log[k + 1..], Waiting);
      assert r.f.items == a + [log[k].item] + b;
      assert r.f.items[..|a|] == a && r.f.items[|a| + 1..] == b;
    }
  }

  /** One call keeps the queue and the reference in agreement. */
  lemma StepAgrees(r: Run, log: Ledger, clock: int, c: Call)
    requires Agree(r, log, clock) && clock <= c.now
    ensures Agree(Apply(r, c), Ideal(log, r.f.maxSize, r.f.maxDelay, c), c.now)
  {
    var e := Expire(log, r.f.maxDelay, c.now);
    CleanupAgrees(r, log, clock, c.now);
    var f := CleanupF(r.f, c.now);
    match c.op
    case Enqueue(p, h) =>
      EnqueueAgrees(r.(f := f), e, c.now, Item(p, h, c.now));
    case Dequeue =>
      if f.items != [] {
        TakeAgrees(r.(f := f), e, c.now);
      } else if Oldest(e) < |e| {
        SettleSplits(e, Oldest(e), Dequeued, Waiting);
        assert false;
      }
    case Peek =>
    case IsEmpty =>
    case Remove(p) => RemoveAgrees(r, log, clock, p);
    case Flush => FlushEmpties(log);
    case SetMaxSize(_) =>
    case SetMaxDelay(_) =>
  }

  /** Main result: over any call sequence on a monotone clock the queue is the ideal expiring
      FIFO. Every accepted item is in the ledger with one fate; dequeues answer in order of
      acceptance; the drop callback got exactly the expired items, once each, in that order. */
  lemma {:induction false} QueueRefinesLedger(r: Run, log: Ledger, clock: int, cs: seq<Call>)
    requires Agree(r, log, clock) && Monotone(clock, cs)
    ensures Agree(ApplyAll(r, cs), IdealAll(log, r.f.maxSize, r.f.maxDelay, cs), End(clock, cs))
    decreases |cs|
  {
    if cs != [] {
      StepAgrees(r, log, clock, cs[0]);
      var n := Apply(r, cs[0]);
      assert n.f.maxSize == if cs[0].op.SetMaxSize? then cs[0].op.n else r.f.maxSize;
      assert n.f.maxDelay == if cs[0].op.SetMaxDelay? then cs[0].op.d else r.f.maxDelay;
      QueueRefinesLedger(n, Ideal(log, r.f.maxSize, r.f.maxDelay, cs[0]), cs[0].now, cs[1..]);
    }
  }

  function Count(log: Ledger, fate: Fate): (r: multiset<Item>) {
    multiset(With(log, fate))
  }

  lemma CountHead(log: Ledger, fate: Fate)
    requires log != []
    ensures Count(log, fate)
         == (if log[0].fate == fate then multiset{log[0].item} else multiset{}) + Count(log[1..], fate)
  {
  }

  /** A ledger's fates partition what was accepted. */
  lemma {:induction false} FatesPartition(log: Ledger)
    ensures multiset(Items(log)) == Count(log, Waiting) + Count(log, Dequeued) + Count(log, Expired)
                                  + Count(log, Removed) + Count(log, Flushed)
  {
    if log != [] {
      FatesPartition(log[1..]);
      assert Items(log) == [log[0].item] + Items(log[1..]);
      CountHead(log, Waiting);
      CountHead(log, Dequeued);
      CountHead(log, Expired);
      CountHead(log, Removed);
      CountHead(log, Flushed);
    }
  }

  /** Conservation, from an empty queue: accepted = dequeued + expired + removed + flushed + waiting,
      where the expired ones are those passed to the drop callback. */
  lemma Conservation(maxSize: nat, maxDelay: int, clock: int, cs: seq<Call>)
    requires Monotone(clock, cs)
    ensures var r := ApplyAll(Run(Fifo([], 0, maxSize, maxDelay, 0, []), [], []), cs);
            var log := IdealAll([], maxSize, maxDelay, cs);
            multiset(r.accepted)
              == multiset(r.f.items) + multiset(r.got) + Count(log, Expired)
               + Count(log, Removed) + Count(log, Flushed)
            && r.f.drops == Packets(With(log, Expired))
            && r.f.size == |r.f.items|
            && Stamped(r.f.items)
  {
    var r0 := Run(Fifo([], 0, maxSize, maxDelay, 0, []), [], []);
    assert Agree(r0, [], clock);
    QueueRefinesLedger(r0, [], clock, cs);
    FatesPartition(IdealAll([], maxSize, maxDelay, cs));
    WithStamped(IdealAll([], maxSize, maxDelay, cs), Waiting);
  }

  /** The bound: without lowering the limit below the current length, the length stays within it. */
  lemma EnqueueKeepsBound(f: Fifo, now: int, p: Packet, h: WifiMacHeader)
    requires f.size == |f.items| <= f.maxSize
    requires Stamped(f.items)
    ensures var (g, ok) := EnqueueF(f, now, p, h);
            g.size == |g.items| <= g.maxSize
            && (ok <==> |Live(f.items, f.maxDelay, now)| < f.maxSize)
  {
    CleanupCutsPrefix(f.items, f.maxDelay, now);
  }

  // ---------------------------------------------------------------- in numbers

  /** Stamped less than the lifetime ago. */
  predicate Fresh(i: Item, delay: int, now: int) {
    now - i.tstamp < delay
  }

  /** In arrival order the answer of Dequeue is the first item stamped less than the lifetime ago, and what is left
      are the items after it; it is null exactly when there is none. */
  lemma {:induction false} DequeueTakes(f: Fifo, now: int)
    requires Stamped(f.items)
    ensures var (r, i) := DequeueF(f, now);
            && (i.None? <==> forall k :: 0 <= k < |f.items| ==> !Fresh(f.items[k], f.maxDelay, now))
            && (i.Some? ==> exists k :: 0 <= k < |f.items| && f.items[k] == i.value && Fresh(i.value, f.maxDelay, now)
                                        && (forall j :: 0 <= j < k ==> !Fresh(f.items[j], f.maxDelay, now))
                                        && r.items == f.items[k + 1..])
  {
    hide Live, Dead;
    CleanupCutsPrefix(f.items, f.maxDelay, now);
    var k := |Dead(f.items, f.maxDelay, now)|;
    if k < |f.items| {
      assert f.items[k..][0] == f.items[k] && f.items[k..][1..] == f.items[k + 1..];
    }
  }

  /** A packet is refused exactly when as many items stamped less than the lifetime ago wait as the limit says;
      an accepted one comes last with the current time. */
  lemma {:induction false} EnqueueIs(f: Fifo, now: int, p: Packet, h: WifiMacHeader)
    requires f.size == |f.items| && Stamped(f.items)
    ensures var (r, ok) := EnqueueF(f, now, p, h);
            exists k :: 0 <= k <= |f.items|
              && (forall j :: 0 <= j < |f.items| ==> (Fresh(f.items[j], f.maxDelay, now) <==> k <= j))
              && (ok <==> |f.items| - k != f.maxSize)
              && r.items == f.items[k..] + if ok then [Item(p, h, now)] else []
  {
    hide Live, Dead;
    CleanupCutsPrefix(f.items, f.maxDelay, now);
    var k := |Dead(f.items, f.maxDelay, now)|;
    forall j | 0 <= j < |f.items| ensures Fresh(f.items[j], f.maxDelay, now) <==> k <= j {
      assert Alive(f.items[j], f.maxDelay, now) <==> k <= j;
    }
  }
}
