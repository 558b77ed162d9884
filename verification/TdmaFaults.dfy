/**
 Which networks can ever hand a null packet down: a condition on the slot map, the rates and the queue
 limits, known before a run starts.
 */
module TdmaFaults {
  import opened Wrappers
  import opened MacQueue
  import opened TdmaModel
  import opened TdmaSafety
  import opened TdmaResults
  import opened TdmaFrames

  // ---------------------------------------------------------------- the shortest positive time on the air

  const NS: pos := 8_000_000_000

  /** The least positive transmission time of any packet: one byte's, or one nanosecond. */
  function SmallestTx(bps: pos): (tx: nat)
    ensures 0 < tx
  {
    if bps <= NS then Quotient(NS, bps, 1); NS / bps else 1
  }

  function SmallestSize(bps: pos): nat {
    if bps <= NS then 1 else (bps + NS - 1) / NS
  }

  lemma Quotient(a: nat, b: pos, q: nat)
    requires q * b <= a
    ensures q <= a / b
  {
    if a / b < q {
      Multiply(a / b + 1, q, b);
    }
  }

  lemma Multiply(a: nat, b: nat, c: nat)
    requires a <= b
    ensures a * c <= b * c
  {
  }

  lemma Within(a: nat, b: pos)
    requires b <= a < 2 * b
    ensures a / b == 1
  {
  }

  lemma RoundUp(a: nat, b: pos)
    ensures a <= (a + b - 1) / b * b < a + b
  {
  }

  /** It is the time of a packet, and no packet has a smaller positive one. */
  lemma SmallestIsLeast(bps: pos, size: nat)
    ensures TxTime(bps, SmallestSize(bps)) == SmallestTx(bps)
    ensures 0 < TxTime(bps, size) ==> SmallestTx(bps) <= TxTime(bps, size)
  {
    if bps <= NS {
      if 0 < size {
        LongerTakesLonger(bps, size);
      }
    } else {
      RoundUp(bps, NS);
      Within((bps + NS - 1) / NS * NS, bps);
    }
  }

  lemma LongerTakesLonger(bps: pos, size: pos)
    ensures NS / bps <= size * 8 * 1_000_000_000 / bps
  {
    assert NS / bps * bps <= NS <= size * 8 * 1_000_000_000;
    Quotient(size * 8 * 1_000_000_000, bps, NS / bps);
  }

  // ---------------------------------------------------------------- settings never change

  /** The MACs, their limits and lifetimes. */
  predicate SameSettings(s: State, r: State) {
    s.queues.Keys == r.queues.Keys
    && forall m :: m in s.queues ==>
         s.queues[m].maxSize == r.queues[m].maxSize && s.queues[m].maxDelay == r.queues[m].maxDelay
  }

  lemma DrainSettings(c: Config, s: State, m: MacId, us: nat)
    requires Known(s, m) && s.tr.windows != []
    ensures SameSettings(s, StartTransmissionF(c, s, m, us))
  {
    hide TxTime, Live, Dead, Expire;
  }

  lemma SendSettings(c: Config, s: State, m: MacId, rem: nat)
    requires Known(s, m) && s.tr.peeked.Some? && s.tr.windows != []
    ensures SameSettings(s, SendPacketDownF(c, s, m, rem))
  {
    hide StartTransmissionF, Live, Dead, Expire, Oldest, Settle;
    var r := HandOverF(s, m);
    assert SameSettings(s, r);
    if !r.fault {
      DrainSettings(c, r, m, rem / 1000);
    }
  }

  lemma SessionSettings(c: Config, s: State, slot: nat)
    ensures SameSettings(s, ScheduleSessionF(c, s, slot))
  {
    hide StartTransmissionF, Same;
    if slot in c.slots && Known(s, c.slots[slot]) {
      var n := 1 + Same(c.slots, c.slots[slot], slot + 1);
      DrainSettings(c, OpenF(c, s, slot, n), c.slots[slot], c.slotUs * n);
    }
  }

  lemma StepSettings(c: Config, s: State, l: Label)
    requires Enabled(s, l)
    ensures SameSettings(s, Do(c, s, l))
  {
    hide ScheduleSessionF, SendPacketDownF, Live, Dead, Expire;
    if l.Fire? {
      match s.events[l.k].ev
      case StartSessions => SessionSettings(c, Pop(s, l.k), 0);
      case Session(slot) => SessionSettings(c, Pop(s, l.k), slot);
      case SendDown(m, r) =>
        if Known(s, m) && s.tr.peeked.Some? && s.tr.windows != [] {
          SendSettings(c, Pop(s, l.k), m, r);
        }
    }
  }

  lemma {:induction false} RunSettings(c: Config, s: State, ls: seq<Label>)
    requires Legal(c, s, ls)
    ensures SameSettings(s, Exec(c, s, ls))
    decreases |ls|
  {
    hide Do, Enabled;
    if ls != [] {
      StepSettings(c, s, ls[0]);
      RunSettings(c, Do(c, s, ls[0]), ls[1..]);
    }
  }

  // ---------------------------------------------------------------- the condition

  /** No packet that arrives is larger than `limit`; the controller asserts 1499 bytes. */
  predicate AtMost(ls: seq<Label>, limit: nat) {
    forall i :: 0 <= i < |ls| ==> Fits(ls[i], limit)
  }

  predicate Fits(l: Label, limit: nat) {
    l.Arrive? ==> l.p.size <= limit
  }

  const LARGEST := 1499

  /** Some run without larger packets hands a null packet down. */
  ghost predicate CanFault(c: Config, s: State, limit: nat) {
    exists ls :: Legal(c, s, ls) && AtMost(ls, limit) && Exec(c, s, ls).fault
  }

  /** The owner accepts packets that live for some time, and the shortest of them fits the session. */
  predicate Risky(c: Config, s: State, r: SlotRun) {
    r.mac in s.queues && 0 < s.queues[r.mac].maxSize && 0 < s.queues[r.mac].maxDelay
    && SmallestTx(c.bps) < 1000 * (c.slotUs * r.count)
  }

  // ---------------------------------------------------------------- a fault needs a risky run

  /** The step of a run that faults. */
  lemma {:induction false} FaultingStep(c: Config, s: State, ls: seq<Label>) returns (pre: seq<Label>, l: Label)
    requires Legal(c, s, ls) && !s.fault && Exec(c, s, ls).fault
    ensures pre <= ls && Legal(c, s, pre) && Enabled(Exec(c, s, pre), l) && Do(c, Exec(c, s, pre), l).fault
    decreases |ls|
  {
    hide Do, Enabled;
    var r := Do(c, s, ls[0]);
    if r.fault {
      pre, l := [], ls[0];
    } else {
      var more;
      more, l := FaultingStep(c, r, ls[1..]);
      Prepend(c, s, ls[0], more);
      pre := [ls[0]] + more;
    }
  }

  /** A send that finds nothing was measured on a packet with a positive time, shorter than the session. */
  lemma FaultIsLate(c: Config, s: State, k: nat)
    requires Inv(c, s) && Enabled(s, Fire(k)) && s.events[k].ev.SendDown?
    requires s.events[k].ev.mac in s.queues
    requires var q := s.queues[s.events[k].ev.mac];
             (q.items == [] || !Alive(q.items[|q.items| - 1], q.maxDelay, s.events[k].at))
    ensures s.tr.windows != [] && s.tr.peeked.Some? && s.events[k].ev.mac == Last(s.tr.windows).mac
    ensures var q, x := s.queues[s.events[k].ev.mac], s.tr.peeked.value;
            0 < q.maxSize && 0 < q.maxDelay && 0 < x.tx < Last(s.tr.windows).len
            && x.tx == TxTime(c.bps, x.item.packet.size)
  {
    hide AirOk, Accounts, QueuesOk, WindowsOk, TxTime;
    PopSend(c, s, k);
    var m := s.events[k].ev.mac;
    var q, x := s.queues[m], s.tr.peeked.value.item;
    StampedQueue(c, s, m);
    if Alive(x, q.maxDelay, s.events[k].at) {
      YoungestAlive(q.items, q.maxDelay, s.events[k].at);
    }
  }

  lemma YoungestAlive(items: seq<Item>, delay: int, now: int)
    requires Stamped(items) && items != [] && Alive(items[0], delay, now)
    ensures Alive(items[|items| - 1], delay, now)
  {
    assert items[0].tstamp <= items[|items| - 1].tstamp;
  }

  lemma WindowInFrame(c: Config, s0: State, ls: seq<Label>) returns (j: nat)
    requires Covered(c) && Initial(c, s0) && Legal(c, s0, ls) && Exec(c, s0, ls).tr.windows != []
    ensures j < |Runs(c, 0)|
    ensures var w := Last(Exec(c, s0, ls).tr.windows);
            Runs(c, 0)[j].mac == w.mac && w.len == 1000 * (c.slotUs * Runs(c, 0)[j].count)
  {
    hide Exec, Legal, Initial, Covered, Runs;
    var i := |Exec(c, s0, ls).tr.windows| - 1;
    ExactFrames(c, s0, ls, i);
    j := i % RunCount(c);
  }

  lemma FaultNeedsRisk(c: Config, s0: State, ls: seq<Label>) returns (j: nat)
    requires Covered(c) && Initial(c, s0) && Legal(c, s0, ls) && Exec(c, s0, ls).fault
    ensures j < |Runs(c, 0)| && Risky(c, s0, Runs(c, 0)[j])
  {
    hide Exec, Legal, Covered, Runs, Do, Inv, TxTime;
    var pre, l := FaultingStep(c, s0, ls);
    var s := Exec(c, s0, pre);
    Reached(c, s0, pre);
    FaultsExactlyOnNullDequeue(c, s0, pre, l);
    FaultIsLate(c, s, l.k);
    j := WindowInFrame(c, s0, pre);
    RunSettings(c, s0, pre);
    SmallestIsLeast(c.bps, s.tr.peeked.value.item.packet.size);
  }

  // ---------------------------------------------------------------- a risky run faults somewhere

  /** Only session event `p` is pending and only MAC `m` may have packets, namely `xs`. */
  predicate Calm(c: Config, s: State, m: MacId, xs: seq<Item>, p: Pending) {
    && !s.fault && s.active && s.events == [p] && s.now <= p.at
    && s.queues.Keys == s.tr.logs.Keys && m in s.queues && |xs| <= 1
    && (forall k :: k in c.slots ==> c.slots[k] in s.queues)
    && (forall k :: k in s.queues ==> s.queues[k].items == if k == m then xs else [])
    && s.queues[m].size == |xs| && 0 < s.queues[m].maxSize
  }

  predicate OpensAt(p: Pending, slot: nat) {
    p.ev == Session(slot) || (p.ev == StartSessions && slot == 0)
  }

  lemma LiveAll(xs: seq<Item>, delay: int, now: int)
    requires |xs| <= 1 && forall i :: 0 <= i < |xs| ==> Alive(xs[i], delay, now)
    ensures Live(xs, delay, now) == xs && Dead(xs, delay, now) == []
  {
    assert xs == [] || xs == [xs[0]];
  }

  /** A session that can send nothing leaves the queues and events alone. */
  lemma CalmDrain(c: Config, s: State, m: MacId, us: nat)
    requires Known(s, m) && s.tr.windows != [] && |s.queues[m].items| <= 1
    requires forall i :: 0 <= i < |s.queues[m].items| ==>
               Alive(s.queues[m].items[i], s.queues[m].maxDelay, s.now)
               && 1000 * us <= TxTime(c.bps, s.queues[m].items[i].packet.size)
    ensures var r := StartTransmissionF(c, s, m, us);
            r.events == s.events && r.fault == s.fault && r.now == s.now && r.active == s.active
            && r.queues == s.queues && r.tr.logs.Keys == s.tr.logs.Keys
  {
    hide TxTime, Expire;
    LiveAll(s.queues[m].items, s.queues[m].maxDelay, s.now);
    assert CleanupF(s.queues[m], s.now) == s.queues[m];
    assert s.queues[m := s.queues[m]] == s.queues;
  }

  /** The state in which the session of `slot` starts to transmit. */
  function AtSession(c: Config, s: State, p: Pending, slot: nat, n: nat): State
    requires slot in c.slots
  {
    OpenF(c, s.(now := p.at, events := []), slot, n)
  }

  lemma SessionFires(c: Config, s: State, p: Pending, slot: nat, n: nat)
    requires !s.fault && s.events == [p] && OpensAt(p, slot) && slot in c.slots && Known(s, c.slots[slot])
    requires n == 1 + Same(c.slots, c.slots[slot], slot + 1)
    ensures Enabled(s, Fire(0))
    ensures Do(c, s, Fire(0))
         == RescheduleF(c, StartTransmissionF(c, AtSession(c, s, p, slot, n), c.slots[slot], c.slotUs * n), slot, n)
  {
    hide StartTransmissionF, RescheduleF, Same;
    assert Pop(s, 0).events == [];
  }

  /** Microseconds to the next session of the same frame, in nanoseconds. */
  function Period(c: Config, n: nat): nat {
    1000 * (c.guardUs + c.slotUs * n)
  }

  /** One more session on the way. */
  lemma CalmStep(c: Config, s: State, m: MacId, xs: seq<Item>, p: Pending, slot: nat, n: nat)
    requires Calm(c, s, m, xs, p) && OpensAt(p, slot) && slot in c.slots
    requires n == 1 + Same(c.slots, c.slots[slot], slot + 1) && slot + n != c.total
    requires forall i :: 0 <= i < |xs| ==> Alive(xs[i], s.queues[m].maxDelay, p.at)
    requires c.slots[slot] == m ==>
      forall i :: 0 <= i < |xs| ==> 1000 * (c.slotUs * n) <= TxTime(c.bps, xs[i].packet.size)
    ensures Enabled(s, Fire(0))
    ensures var r, q := Do(c, s, Fire(0)), Pending(p.at + Period(c, n), Session(slot + n));
            Calm(c, r, m, xs, q) && r.queues == s.queues && r.now == p.at
  {
    hide TxTime, Same, StartTransmissionF, Do, Enabled;
    SessionFires(c, s, p, slot, n);
    CalmDrain(c, AtSession(c, s, p, slot, n), c.slots[slot], c.slotUs * n);
  }

  lemma CalmArrive(c: Config, s: State, m: MacId, p: Pending, t: int, pk: Packet, h: WifiMacHeader)
    requires Calm(c, s, m, [], p) && s.now <= t <= p.at
    ensures Enabled(s, Arrive(t, m, pk, h))
    ensures var r := Do(c, s, Arrive(t, m, pk, h));
            Calm(c, r, m, [Item(pk, h, t)], p) && r.queues[m].maxDelay == s.queues[m].maxDelay
  {
    assert [] + [Item(pk, h, t)] == [Item(pk, h, t)];
  }

  lemma MeasureDrain(c: Config, s: State, m: MacId, us: nat, x: Item)
    requires Known(s, m) && s.tr.windows != [] && s.queues[m].items == [x]
    requires Alive(x, s.queues[m].maxDelay, s.now) && TxTime(c.bps, x.packet.size) < 1000 * us
    ensures var r, tx := StartTransmissionF(c, s, m, us), TxTime(c.bps, x.packet.size);
            r.events == s.events + [Pending(s.now + tx, SendDown(m, 1000 * us - tx))] && r.fault == s.fault
            && r.now == s.now && r.active == s.active && r.queues == s.queues && r.tr.logs.Keys == s.tr.logs.Keys
            && r.tr.peeked == Some(Measured(x, tx)) && r.tr.windows == s.tr.windows && r.tr.air == s.tr.air
  {
    hide TxTime, Expire;
    LiveAll([x], s.queues[m].maxDelay, s.now);
    assert CleanupF(s.queues[m], s.now) == s.queues[m];
    assert s.queues[m := s.queues[m]] == s.queues;
  }

  /** The session event of the next run, after one that opened at `at`. */
  function NextOf(c: Config, at: int, slot: nat, n: nat): Pending {
    if slot + n == c.total
    then Pending(at + 1000 * (c.guardUs + c.slotUs * n + c.interUs), StartSessions)
    else Pending(at + Period(c, n), Session(slot + n))
  }

  /** The session of the packet's owner opens, and its sending is scheduled. */
  lemma TargetMeasures(c: Config, s: State, m: MacId, x: Item, p: Pending, slot: nat, n: nat)
    requires Calm(c, s, m, [x], p) && OpensAt(p, slot) && slot in c.slots && c.slots[slot] == m
    requires n == 1 + Same(c.slots, m, slot + 1) && TxTime(c.bps, x.packet.size) < 1000 * (c.slotUs * n)
    requires Alive(x, s.queues[m].maxDelay, p.at)
    ensures Enabled(s, Fire(0))
    ensures var r, tx := Do(c, s, Fire(0)), TxTime(c.bps, x.packet.size);
            && !r.fault && r.active && r.now == p.at && r.queues == s.queues && r.tr.logs.Keys == s.tr.logs.Keys
            && r.events == [Pending(p.at + tx, SendDown(m, 1000 * (c.slotUs * n) - tx)), NextOf(c, p.at, slot, n)]
            && r.tr.windows == s.tr.windows + [Window(m, slot, n, p.at, 1000 * (c.slotUs * n))]
            && r.tr.air == s.tr.air && r.tr.peeked == Some(Measured(x, tx))
            && Known(r, m) && r.queues[m].items == [x] && p.at + tx <= NextOf(c, p.at, slot, n).at
  {
    hide TxTime, Same, StartTransmissionF, Do, Enabled;
    SessionFires(c, s, p, slot, n);
    MeasureDrain(c, AtSession(c, s, p, slot, n), m, c.slotUs * n, x);
  }

  lemma NullSend(c: Config, r: State, m: MacId, x: Item, at: int, rem: nat)
    requires !r.fault && |r.events| == 2 && r.events[0] == Pending(at, SendDown(m, rem)) && at <= r.events[1].at
    requires r.tr.peeked.Some? && r.tr.windows != [] && Known(r, m)
    requires r.queues[m].items == [x] && !Alive(x, r.queues[m].maxDelay, at)
    ensures Enabled(r, Fire(0)) && Do(c, r, Fire(0)).fault
  {
    hide StartTransmissionF, Expire, TxTime;
    assert Live([x], r.queues[m].maxDelay, at) == [] by {
      assert [x][1..] == [];
    }
  }

  lemma TargetFaults(c: Config, s: State, m: MacId, x: Item, p: Pending, slot: nat, n: nat, limit: nat)
    requires Calm(c, s, m, [x], p) && OpensAt(p, slot) && slot in c.slots && c.slots[slot] == m
    requires n == 1 + Same(c.slots, m, slot + 1) && 0 < TxTime(c.bps, x.packet.size) < 1000 * (c.slotUs * n)
    requires Alive(x, s.queues[m].maxDelay, p.at)
    requires !Alive(x, s.queues[m].maxDelay, p.at + TxTime(c.bps, x.packet.size))
    ensures CanFault(c, s, limit)
  {
    hide Do, Enabled, Calm, TxTime, Same, Alive, CanFault;
    TargetMeasures(c, s, m, x, p, slot, n);
    var r := Do(c, s, Fire(0));
    NullSend(c, r, m, x, r.events[0].at, r.events[0].ev.remaining);
    FaultsNow(c, r, Fire(0), limit);
    Extend(c, s, Fire(0), limit);
  }

  lemma FaultsNow(c: Config, s: State, l: Label, limit: nat)
    requires Enabled(s, l) && Do(c, s, l).fault && Fits(l, limit)
    ensures CanFault(c, s, limit)
  {
    hide Do, Enabled, Fits;
    var r := Do(c, s, l);
    assert Legal(c, r, []) && Exec(c, r, []) == r;
    Prepend(c, s, l, []);
    assert AtMost([l], limit) && [l] + [] == [l];
  }

  /** From `slot` the chain reaches the first session of `m` that is longer than `tx`, at `target`. */
  predicate Leads(c: Config, slot: nat, target: nat, m: MacId, tx: nat)
    requires Covered(c) && slot < c.total
    decreases c.total - slot
  {
    var r := RunAt(c, slot);
    if slot == target then r.mac == m && tx < 1000 * (c.slotUs * r.count)
    else slot + r.count < c.total && (r.mac == m ==> 1000 * (c.slotUs * r.count) <= tx)
         && Leads(c, slot + r.count, target, m, tx)
  }

  /** The time this takes. */
  function Gap(c: Config, slot: nat, target: nat, m: MacId, tx: nat): nat
    requires Covered(c) && slot < c.total && Leads(c, slot, target, m, tx)
    decreases c.total - slot
  {
    if slot == target then 0
    else
      var n := RunAt(c, slot).count;
      Period(c, n) + Gap(c, slot + n, target, m, tx)
  }

  lemma {:induction false} FindLead(c: Config, slot: nat, j: nat, m: MacId, tx: nat) returns (target: nat)
    requires Covered(c) && slot < c.total && j < |Runs(c, slot)|
    requires Runs(c, slot)[j].mac == m && tx < 1000 * (c.slotUs * Runs(c, slot)[j].count)
    ensures slot <= target && Leads(c, slot, target, m, tx)
    decreases c.total - slot
  {
    hide Covered, RunAt;
    var r := RunAt(c, slot);
    assert Runs(c, slot) == [r] + Runs(c, slot + r.count);
    if r.mac == m && tx < 1000 * (c.slotUs * r.count) {
      target := slot;
    } else {
      assert Runs(c, slot)[j] == Runs(c, slot + r.count)[j - 1];
      target := FindLead(c, slot + r.count, j - 1, m, tx);
    }
  }

  /** The packet arrives at `t0`, lives when the target session opens and dies during its transmission. */
  lemma {:induction false} ReachFault(c: Config, s: State, m: MacId, pk: Packet, h: WifiMacHeader,
                                      t0: int, arrived: bool,
                                 p: Pending, slot: nat, target: nat, tx: nat, limit: nat)
    requires Covered(c) && slot < c.total && OpensAt(p, slot) && 0 < tx == TxTime(c.bps, pk.size) && pk.size <= limit
    requires Leads(c, slot, target, m, tx)
    requires Calm(c, s, m, if arrived then [Item(pk, h, t0)] else [], p)
    requires var t := p.at + Gap(c, slot, target, m, tx);
             t0 <= t < t0 + s.queues[m].maxDelay <= t + tx
    requires !arrived ==> s.now <= t0
    ensures CanFault(c, s, limit)
    decreases c.total - slot, !arrived
  {
    hide Calm, Covered, TxTime, Same, Do, Enabled, CanFault;
    var x, r := Item(pk, h, t0), RunAt(c, slot);
    var delay := CalmDelay(c, s, m, if arrived then [x] else [], p);
    assert slot in c.slots by { CoveredHas(c, slot); }
    if !arrived && t0 <= p.at {
      CalmArrive(c, s, m, p, t0, pk, h);
      ReachFault(c, Do(c, s, Arrive(t0, m, pk, h)), m, pk, h, t0, true, p, slot, target, tx, limit);
      Extend(c, s, Arrive(t0, m, pk, h), limit);
    } else if slot == target {
      TargetFaults(c, s, m, x, p, slot, r.count, limit);
    } else {
      var q := Pending(p.at + Period(c, r.count), Session(slot + r.count));
      CalmStep(c, s, m, if arrived then [x] else [], p, slot, r.count);
      ReachFault(c, Do(c, s, Fire(0)), m, pk, h, t0, arrived, q, slot + r.count, target, tx, limit);
      Extend(c, s, Fire(0), limit);
    }
  }

  lemma CalmDelay(c: Config, s: State, m: MacId, xs: seq<Item>, p: Pending) returns (delay: int)
    requires Calm(c, s, m, xs, p)
    ensures m in s.queues && delay == s.queues[m].maxDelay
  {
    delay := s.queues[m].maxDelay;
  }

  lemma CoveredHas(c: Config, slot: nat)
    requires Covered(c) && slot < c.total
    ensures slot in c.slots
  {
  }

  lemma Extend(c: Config, s: State, l: Label, limit: nat)
    requires Enabled(s, l) && Fits(l, limit) && CanFault(c, Do(c, s, l), limit)
    ensures CanFault(c, s, limit)
  {
    hide Do, Enabled, Fits;
    var ls :| Legal(c, Do(c, s, l), ls) && AtMost(ls, limit) && Exec(c, Do(c, s, l), ls).fault;
    Prepend(c, s, l, ls);
    forall i | 0 <= i < |[l] + ls| ensures Fits(([l] + ls)[i], limit) {
      assert 0 < i ==> ([l] + ls)[i] == ls[i - 1];
    }
  }

  const HDR := WifiMacHeader(0, 0, 0)

  lemma CalmStart(c: Config, s: State, m: MacId, t: int)
    requires Initial(c, s) && m in s.queues && 0 < s.queues[m].maxSize && s.now <= t
    ensures Enabled(s, Start(t))
    ensures var r := Do(c, s, Start(t));
            Calm(c, r, m, [], Pending(t + 10, StartSessions)) && r.queues == s.queues && r.now == t
  {
    assert [] + [Pending(t + 10, StartSessions)] == [Pending(t + 10, StartSessions)];
  }

  /** The same with a packet queued at once. */
  lemma CalmQueueStart(c: Config, s: State, m: MacId, pk: Packet, t: int)
    requires Initial(c, s) && m in s.queues && 0 < s.queues[m].maxSize && s.now <= t
    ensures Enabled(s, Arrive(s.now, m, pk, HDR)) && Enabled(Do(c, s, Arrive(s.now, m, pk, HDR)), Start(t))
    ensures var r := Do(c, Do(c, s, Arrive(s.now, m, pk, HDR)), Start(t));
            Calm(c, r, m, [Item(pk, HDR, s.now)], Pending(t + 10, StartSessions))
            && r.queues[m].maxDelay == s.queues[m].maxDelay
  {
    assert [] + [Pending(t + 10, StartSessions)] == [Pending(t + 10, StartSessions)];
    assert [] + [Item(pk, HDR, s.now)] == [Item(pk, HDR, s.now)];
  }

  lemma RiskFaults(c: Config, s0: State, j: nat, limit: nat)
    requires Covered(c) && Initial(c, s0) && j < |Runs(c, 0)| && Risky(c, s0, Runs(c, 0)[j])
    requires SmallestSize(c.bps) <= limit
    ensures CanFault(c, s0, limit)
  {
    hide Covered, Initial, Runs, Do, Enabled, TxTime, Calm, SmallestTx, SmallestSize, CanFault;
    var m, tx := Runs(c, 0)[j].mac, SmallestTx(c.bps);
    var pk := Packet(0, SmallestSize(c.bps));
    SmallestIsLeast(c.bps, pk.size);
    assert 0 < c.total by { FrameNotEmpty(c); }
    var target := FindLead(c, 0, j, m, tx);
    var gap := Gap(c, 0, target, m, tx);
    var delay := s0.queues[m].maxDelay;
    var before := if tx < delay then delay - tx else 0;
    if before <= 10 + gap {
      CalmStart(c, s0, m, s0.now);
      ReachFault(c, Do(c, s0, Start(s0.now)), m, pk, HDR, s0.now + 10 + gap - before, false,
                 Pending(s0.now + 10, StartSessions), 0, target, tx, limit);
      Extend(c, s0, Start(s0.now), limit);
    } else {
      var t := s0.now + before - 10 - gap;
      CalmQueueStart(c, s0, m, pk, t);
      var l := Arrive(s0.now, m, pk, HDR);
      ReachFault(c, Do(c, Do(c, s0, l), Start(t)), m, pk, HDR, s0.now, true,
                 Pending(t + 10, StartSessions), 0, target, tx, limit);
      Extend(c, Do(c, s0, l), Start(t), limit);
      Extend(c, s0, l, limit);
    }
  }

  lemma FrameNotEmpty(c: Config)
    requires Covered(c)
    ensures 0 < c.total
  {
  }

  // ---------------------------------------------------------------- packet sizes

  /** Nothing larger than `limit` waits or is being measured. */
  predicate Sized(s: State, limit: nat) {
    && (forall m, i :: m in s.queues && i in s.queues[m].items ==> i.packet.size <= limit)
    && (s.tr.peeked.Some? ==> s.tr.peeked.value.item.packet.size <= limit)
  }

  lemma DrainSized(c: Config, s: State, m: MacId, us: nat, limit: nat)
    requires Known(s, m) && s.tr.windows != [] && Sized(s, limit)
    ensures Sized(StartTransmissionF(c, s, m, us), limit)
  {
    hide TxTime, Live, Dead, Expire;
    LiveFrom(s.queues[m].items, s.queues[m].maxDelay, s.now);
    assert Sized(CleanF(s, m), limit);
  }

  lemma HandOverSized(s: State, m: MacId, limit: nat)
    requires Known(s, m) && s.tr.peeked.Some? && s.tr.windows != [] && Sized(s, limit)
    ensures Sized(HandOverF(s, m), limit)
  {
    hide Live, Dead, Expire, Oldest, Settle;
    LiveFrom(s.queues[m].items, s.queues[m].maxDelay, s.now);
  }

  lemma SendSized(c: Config, s: State, m: MacId, rem: nat, limit: nat)
    requires Known(s, m) && s.tr.peeked.Some? && s.tr.windows != [] && Sized(s, limit)
    ensures Sized(SendPacketDownF(c, s, m, rem), limit)
  {
    hide StartTransmissionF, HandOverF, Sized;
    HandOverSized(s, m, limit);
    HandOverMacs(s, m);
    if !HandOverF(s, m).fault {
      assert HandOverF(s, m).tr.windows != [] by { HandOverWindows(s, m); }
      DrainSized(c, HandOverF(s, m), m, rem / 1000, limit);
    }
  }

  lemma HandOverWindows(s: State, m: MacId)
    requires Known(s, m) && s.tr.peeked.Some? && s.tr.windows != []
    ensures HandOverF(s, m).tr.windows == s.tr.windows
  {
  }

  lemma SessionSized(c: Config, s: State, slot: nat, limit: nat)
    requires Sized(s, limit)
    ensures Sized(ScheduleSessionF(c, s, slot), limit)
  {
    hide StartTransmissionF, Same;
    if slot in c.slots && Known(s, c.slots[slot]) {
      var n := 1 + Same(c.slots, c.slots[slot], slot + 1);
      DrainSized(c, OpenF(c, s, slot, n), c.slots[slot], c.slotUs * n, limit);
    }
  }

  lemma ArriveSized(s: State, m: MacId, p: Packet, h: WifiMacHeader, limit: nat)
    requires Known(s, m) && Sized(s, limit) && p.size <= limit
    ensures Sized(QueueF(s, m, p, h), limit)
  {
    hide Live, Dead, Expire;
    LiveFrom(s.queues[m].items, s.queues[m].maxDelay, s.now);
  }

  lemma StepSized(c: Config, s: State, l: Label, limit: nat)
    requires Enabled(s, l) && Sized(s, limit) && Fits(l, limit)
    ensures Sized(Do(c, s, l), limit)
  {
    hide ScheduleSessionF, SendPacketDownF, QueueF;
    match l
    case Start(t) =>
    case Arrive(t, m, p, h) => ArriveSized(s.(now := t), m, p, h, limit);
    case Fire(k) =>
      match s.events[k].ev {
        case StartSessions => SessionSized(c, Pop(s, k), 0, limit);
        case Session(slot) => SessionSized(c, Pop(s, k), slot, limit);
        case SendDown(m, r) =>
          if Known(s, m) && s.tr.peeked.Some? && s.tr.windows != [] {
            SendSized(c, Pop(s, k), m, r, limit);
          }
      }
  }

  lemma {:induction false} RunSized(c: Config, s: State, ls: seq<Label>, limit: nat)
    requires Legal(c, s, ls) && Sized(s, limit) && AtMost(ls, limit)
    ensures Sized(Exec(c, s, ls), limit)
    decreases |ls|
  {
    hide Do, Enabled, Sized, Fits;
    if ls != [] {
      assert Fits(ls[0], limit);
      StepSized(c, s, ls[0], limit);
      forall i | 0 <= i < |ls[1..]| ensures Fits(ls[1..][i], limit) {
        assert ls[1..][i] == ls[i + 1];
      }
      RunSized(c, Do(c, s, ls[0]), ls[1..], limit);
    }
  }

  /** No shorter packet takes any time. */
  lemma TimeNeedsSize(bps: pos, size: nat)
    requires 0 < TxTime(bps, size)
    ensures SmallestSize(bps) <= size
  {
    if NS < bps {
      AtLeastOne(size * 8 * 1_000_000_000, bps);
      WholeBytes(bps, size);
    }
  }

  lemma AtLeastOne(a: nat, b: pos)
    requires 0 < a / b
    ensures b <= a
  {
  }

  lemma WholeBytes(a: nat, size: nat)
    requires a <= size * NS
    ensures (a + NS - 1) / NS <= size
  {
  }

  lemma FaultNeedsSize(c: Config, s0: State, ls: seq<Label>, limit: nat)
    requires Covered(c) && Initial(c, s0) && Legal(c, s0, ls) && AtMost(ls, limit) && Exec(c, s0, ls).fault
    ensures SmallestSize(c.bps) <= limit
  {
    hide Exec, Legal, Covered, Runs, Do, Inv, TxTime, Sized;
    var pre, l := FaultingStep(c, s0, ls);
    var s := Exec(c, s0, pre);
    Reached(c, s0, pre);
    FaultsExactlyOnNullDequeue(c, s0, pre, l);
    FaultIsLate(c, s, l.k);
    assert Sized(s0, limit) by { EmptySized(c, s0, limit); }
    assert AtMost(pre, limit) by {
      forall i | 0 <= i < |pre| ensures Fits(pre[i], limit) {
        assert pre[i] == ls[i];
      }
    }
    RunSized(c, s0, pre, limit);
    MeasuredSized(s, limit);
    TimeNeedsSize(c.bps, s.tr.peeked.value.item.packet.size);
  }

  lemma EmptySized(c: Config, s: State, limit: nat)
    requires Initial(c, s)
    ensures Sized(s, limit)
  {
  }

  lemma MeasuredSized(s: State, limit: nat)
    requires Sized(s, limit) && s.tr.peeked.Some?
    ensures s.tr.peeked.value.item.packet.size <= limit
  {
  }

  // ---------------------------------------------------------------- the theorem

  /** With packets up to any size: some run hands a null packet down exactly when some session of the frame is
      longer than the shortest positive transmission time, its owner's queue has room and a positive lifetime,
      and a packet that takes any time at all is within the size. */
  lemma FaultIff(c: Config, s0: State, limit: nat)
    requires Covered(c) && Initial(c, s0)
    ensures CanFault(c, s0, limit)
       <==> SmallestSize(c.bps) <= limit && exists j :: 0 <= j < |Runs(c, 0)| && Risky(c, s0, Runs(c, 0)[j])
  {
    hide Covered, Initial, Runs, Exec, Legal, Risky, AtMost;
    if CanFault(c, s0, limit) {
      var ls :| Legal(c, s0, ls) && AtMost(ls, limit) && Exec(c, s0, ls).fault;
      var j := FaultNeedsRisk(c, s0, ls);
      FaultNeedsSize(c, s0, ls, limit);
    }
    if j :| 0 <= j < |Runs(c, 0)| && Risky(c, s0, Runs(c, 0)[j]) {
      if SmallestSize(c.bps) <= limit {
        RiskFaults(c, s0, j, limit);
      }
    }
  }

  /** Without a bound on sizes the last condition goes. */
  lemma UnboundedFaultIff(c: Config, s0: State)
    requires Covered(c) && Initial(c, s0)
    ensures (exists ls :: Legal(c, s0, ls) && Exec(c, s0, ls).fault)
       <==> exists j :: 0 <= j < |Runs(c, 0)| && Risky(c, s0, Runs(c, 0)[j])
  {
    hide Covered, Initial, Runs, Exec, Legal, Risky, AtMost;
    if ls :| Legal(c, s0, ls) && Exec(c, s0, ls).fault {
      var j := FaultNeedsRisk(c, s0, ls);
    }
    if j :| 0 <= j < |Runs(c, 0)| && Risky(c, s0, Runs(c, 0)[j]) {
      RiskFaults(c, s0, j, SmallestSize(c.bps));
    }
  }

  const ONE_SLOT := Config(10, 0, 0, 8_000_000_000, 1, map[0 := 7])
  const IDLE := State(0, false, [], map[7 := Fifo([], 0, 400, 5, 0, [])], false,
                      Trace(0, [], [], [], None, map[7 := []]))

  /** It does happen: one MAC with one slot and a lifetime of 5 ns. */
  lemma NullDequeueHappens()
    ensures Covered(ONE_SLOT) && Initial(ONE_SLOT, IDLE)
    ensures CanFault(ONE_SLOT, IDLE, LARGEST)
  {
    hide CanFault;
    FramePartition(ONE_SLOT);
    assert Runs(ONE_SLOT, 0)[0] == RunAt(ONE_SLOT, 0);
    assert Risky(ONE_SLOT, IDLE, Runs(ONE_SLOT, 0)[0]);
    FaultIff(ONE_SLOT, IDLE, LARGEST);
  }
}
