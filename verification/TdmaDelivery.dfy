/**
 Delivery: a packet that fits its owner's session and lives long enough goes out, and when at the latest.
 */
module TdmaDelivery {
  import opened Wrappers
  import opened MacQueue
  import opened TdmaModel
  import opened TdmaSafety
  import opened TdmaResults
  import opened TdmaFrames
  import opened TdmaFaults

  // ---------------------------------------------------------------- one packet in its queue

  /** `x` waits behind exactly the items of `ahead`. */
  predicate Behind(q: seq<Item>, ahead: seq<Item>, x: Item) {
    ahead + [x] <= q
  }

  /** Dropping what has expired keeps a live packet behind those still alive before it. */
  lemma LiveBehind(q: seq<Item>, ahead: seq<Item>, x: Item, delay: int, now: int)
    requires Behind(q, ahead, x) && Alive(x, delay, now)
    ensures Behind(Live(q, delay, now), Live(ahead, delay, now), x)
  {
    var rest := q[|ahead| + 1..];
    assert q == ahead + ([x] + rest);
    LiveConcat(ahead, [x] + rest, delay, now);
    assert ([x] + rest)[1..] == rest;
    assert Live(q, delay, now) == Live(ahead, delay, now) + ([x] + Live(rest, delay, now));
  }

  // ---------------------------------------------------------------- what each call does to it

  lemma DrainQueue(c: Config, s: State, k: MacId, us: nat, m: MacId)
    requires Known(s, k) && Known(s, m) && s.tr.windows != []
    ensures var r := StartTransmissionF(c, s, k, us);
            && r.queues.Keys == s.queues.Keys && r.tr.logs.Keys == s.tr.logs.Keys
            && r.queues[m] == (if k == m then CleanupF(s.queues[m], s.now) else s.queues[m])
            && r.tr.air == s.tr.air && r.tr.windows == s.tr.windows && r.now == s.now && r.active == s.active
            && r.tr.startedAt == s.tr.startedAt
  {
    hide TxTime, CleanupF, Expire;
  }

  lemma HandOverMoves(s: State, k: MacId, m: MacId)
    requires Known(s, k) && Known(s, m) && s.tr.peeked.Some? && s.tr.windows != []
    ensures var r, (q, i) := HandOverF(s, k), DequeueF(s.queues[k], s.now);
            && r.queues.Keys == s.queues.Keys && r.tr.logs.Keys == s.tr.logs.Keys
            && r.queues[m] == (if k == m then q else s.queues[m])
            && r.tr.windows == s.tr.windows
            && r.now == s.now && r.active == s.active && r.tr.startedAt == s.tr.startedAt
            && r.fault == (s.fault || i == None) && r.events == s.events
            && r.tr.air == if i == None then s.tr.air
                           else s.tr.air + [Frame(|s.tr.windows| - 1, k, i.value, s.tr.peeked.value, s.now)]
  {
    hide DequeueF, Expire, Oldest, Settle;
  }

  /** `x` has just gone out. */
  predicate Taken(s: State, r: State, m: MacId, x: Item) {
    && |r.tr.air| == |s.tr.air| + 1 && s.tr.air <= r.tr.air
    && var f := r.tr.air[|s.tr.air|]; f.item == x && f.mac == m && f.at == r.now
  }

  /** `x` still waits, behind no more than before. */
  predicate Closer(s: State, r: State, m: MacId, x: Item, ahead: seq<Item>, left: seq<Item>) {
    && m in s.queues && m in r.queues && r.queues[m].maxDelay == s.queues[m].maxDelay
    && Behind(r.queues[m].items, left, x) && |left| <= |ahead| && (forall i :: i in left ==> i in ahead)
    && s.tr.air <= r.tr.air
  }

  /** A send of its own MAC takes it, or one of those before it. */
  lemma OwnSend(c: Config, s: State, m: MacId, rem: nat, x: Item, ahead: seq<Item>) returns (left: seq<Item>)
    requires Known(s, m) && s.tr.peeked.Some? && s.tr.windows != []
    requires Behind(s.queues[m].items, ahead, x) && Alive(x, s.queues[m].maxDelay, s.now)
    ensures var r := SendPacketDownF(c, s, m, rem);
            || Taken(s, r, m, x)
            || (Closer(s, r, m, x, ahead, left) && |left| < |ahead|)
  {
    hide HandOverF, StartTransmissionF, Live, Dead;
    var q, delay := s.queues[m], s.queues[m].maxDelay;
    LiveBehind(q.items, ahead, x, delay, s.now);
    LiveFrom(ahead, delay, s.now);
    HandOverMoves(s, m, m);
    var h := HandOverF(s, m);
    var live := Live(ahead, delay, s.now);
    if live == [] {
      left := [];
      if !h.fault { DrainQueue(c, h, m, rem / 1000, m); }
    } else {
      left := live[1..];
      assert Behind(h.queues[m].items, left, x);
      DrainQueue(c, h, m, rem / 1000, m);
      LiveAgain(h.queues[m].items, left, live, ahead, x, delay, s.now);
    }
  }

  lemma LiveAgain(q: seq<Item>, left: seq<Item>, live: seq<Item>, ahead: seq<Item>, x: Item, delay: int, now: int)
    requires live == Live(ahead, delay, now) && live != [] && left == live[1..]
    requires Behind(q, left, x) && Alive(x, delay, now)
    ensures Behind(Live(q, delay, now), left, x)
  {
    LiveBehind(q, left, x, delay, now);
    LiveIsLive(ahead, delay, now);
    LiveConcat([live[0]], left, delay, now);
    assert live == [live[0]] + left && [live[0]][1..] == [];
    LiveFrom(ahead, delay, now);
  }

  lemma OtherSend(c: Config, s: State, k: MacId, rem: nat, m: MacId, x: Item, ahead: seq<Item>)
    requires Known(s, k) && Known(s, m) && k != m && s.tr.peeked.Some? && s.tr.windows != []
    requires Behind(s.queues[m].items, ahead, x)
    ensures Closer(s, SendPacketDownF(c, s, k, rem), m, x, ahead, ahead)
  {
    hide HandOverF, StartTransmissionF, DequeueF;
    HandOverMoves(s, k, m);
    var h := HandOverF(s, k);
    if !h.fault { DrainQueue(c, h, k, rem / 1000, m); }
  }

  /** Sending changes neither the windows nor the chain. */
  lemma SendFrames(c: Config, s: State, k: MacId, rem: nat)
    requires Known(s, k) && s.tr.peeked.Some? && s.tr.windows != []
    ensures var r := SendPacketDownF(c, s, k, rem);
            r.tr.windows == s.tr.windows && r.active == s.active && r.tr.startedAt == s.tr.startedAt && r.now == s.now
  {
    hide HandOverF, StartTransmissionF, DequeueF;
    HandOverMoves(s, k, k);
    var h := HandOverF(s, k);
    if !h.fault { DrainQueue(c, h, k, rem / 1000, k); }
  }

  /** A session cleans its owner's queue and opens a window. */
  lemma SessionMoves(c: Config, s: State, slot: nat, m: MacId, x: Item, ahead: seq<Item>) returns (left: seq<Item>)
    requires slot in c.slots && Known(s, c.slots[slot]) && Known(s, m)
    requires Behind(s.queues[m].items, ahead, x) && Alive(x, s.queues[m].maxDelay, s.now)
    ensures left == if c.slots[slot] == m then Live(ahead, s.queues[m].maxDelay, s.now) else ahead
    ensures var r := ScheduleSessionF(c, s, slot);
            Closer(s, r, m, x, ahead, left)
            && r.tr.windows == s.tr.windows + [Opened(c, slot, s.now)] && r.tr.air == s.tr.air
            && r.active == s.active && r.tr.startedAt == s.tr.startedAt && r.now == s.now
  {
    hide StartTransmissionF, Same, Live, Dead;
    var n := 1 + Same(c.slots, c.slots[slot], slot + 1);
    DrainQueue(c, OpenF(c, s, slot, n), c.slots[slot], c.slotUs * n, m);
    LiveBehind(s.queues[m].items, ahead, x, s.queues[m].maxDelay, s.now);
    LiveFrom(ahead, s.queues[m].maxDelay, s.now);
    left := if c.slots[slot] == m then Live(ahead, s.queues[m].maxDelay, s.now) else ahead;
  }

  lemma ArriveMoves(s: State, k: MacId, p: Packet, h: WifiMacHeader, m: MacId, x: Item, ahead: seq<Item>)
    returns (left: seq<Item>)
    requires Known(s, k) && Known(s, m)
    requires Behind(s.queues[m].items, ahead, x) && Alive(x, s.queues[m].maxDelay, s.now)
    ensures Closer(s, QueueF(s, k, p, h), m, x, ahead, left)
  {
    hide Live, Dead, Expire;
    LiveBehind(s.queues[m].items, ahead, x, s.queues[m].maxDelay, s.now);
    LiveFrom(ahead, s.queues[m].maxDelay, s.now);
    left := if k == m then Live(ahead, s.queues[m].maxDelay, s.now) else ahead;
  }

  // ---------------------------------------------------------------- one step

  predicate Sends1(s: State, l: Label, m: MacId) {
    l.Fire? && l.k < |s.events| && s.events[l.k].ev.SendDown? && s.events[l.k].ev.mac == m
  }

  predicate OpensSession(s: State, l: Label) {
    l.Fire? && l.k < |s.events| && !s.events[l.k].ev.SendDown?
  }

  /** The window that the session event of the state opens. */
  function NextWindow(c: Config, s: State): Window
    requires Covered(c) && Inv(c, s)
  {
    SlotOfNext(c, s);
    var e := NextSession(c, s).ev;
    Opened(c, if e.StartSessions? then 0 else e.slot, NextSession(c, s).at)
  }

  /** What a step of an active chain does to a packet that outlives it. */
  lemma StepMoves(c: Config, s: State, l: Label, m: MacId, x: Item, ahead: seq<Item>) returns (left: seq<Item>)
    requires Inv(c, s) && Sound(c, s) && Enabled(s, l) && s.active && m in s.queues
    requires Behind(s.queues[m].items, ahead, x) && Alive(x, s.queues[m].maxDelay, Do(c, s, l).now)
    ensures var r := Do(c, s, l);
            && r.active && r.tr.startedAt == s.tr.startedAt
            && (Closer(s, r, m, x, ahead, left) || (Sends1(s, l, m) && Taken(s, r, m, x)))
            && (Sends1(s, l, m) ==> Taken(s, r, m, x) || |left| < |ahead|)
            && r.tr.windows == s.tr.windows + (if OpensSession(s, l) then [NextWindow(c, s)] else [])
            && (!l.Fire? ==> r.events == s.events)
  {
    hide AirOk, Accounts, QueuesOk, WindowsOk, Sending, SendPacketDownF, ScheduleSessionF, Taken, Closer;
    match l
    case Start(t) =>
      left := ahead;
      assert Closer(s, Do(c, s, l), m, x, ahead, ahead) by { Stays(s, Do(c, s, l), m, x, ahead); }
    case Arrive(t, k, p, h) =>
      KnownAll(c, s, m);
      left := ArriveMoves(s.(now := t), k, p, h, m, x, ahead);
      Relate(s, s.(now := t), Do(c, s, l), m, x, ahead, left);
    case Fire(k) =>
      KnownAll(c, s, m);
      var s0 := Pop(s, k);
      if s.events[k].ev.SendDown? {
        var o, rem := s.events[k].ev.mac, s.events[k].ev.remaining;
        PopSend(c, s, k);
        SendFrames(c, s0, o, rem);
        if o == m {
          NowOfSend(c, s, k);
          left := OwnSend(c, s0, m, rem, x, ahead);
        } else {
          left := ahead;
          OtherSend(c, s0, o, rem, m, x, ahead);
        }
        Relate(s, s0, Do(c, s, l), m, x, ahead, left);
      } else {
        NoSendAtSession(c, s, k);
        SlotOfNext(c, s);
        var e := s.events[k].ev;
        var slot := if e.StartSessions? then 0 else e.slot;
        assert Known(s0, c.slots[slot]) by { OwnerKnown(c, s, slot); }
        NowOfSession(c, s, k, slot);
        left := SessionMoves(c, s0, slot, m, x, ahead);
        Relate(s, s0, Do(c, s, l), m, x, ahead, left);
      }
  }

  lemma Stays(s: State, r: State, m: MacId, x: Item, ahead: seq<Item>)
    requires m in s.queues && r.queues == s.queues && r.tr.air == s.tr.air && Behind(s.queues[m].items, ahead, x)
    ensures Closer(s, r, m, x, ahead, ahead)
  {
  }

  /** Only the clock and the event list differ. */
  lemma Relate(s: State, s0: State, r: State, m: MacId, x: Item, ahead: seq<Item>, left: seq<Item>)
    requires s0.queues == s.queues && s0.tr == s.tr
    ensures Closer(s0, r, m, x, ahead, left) ==> Closer(s, r, m, x, ahead, left)
    ensures Taken(s0, r, m, x) ==> Taken(s, r, m, x)
  {
  }

  lemma KnownAll(c: Config, s: State, m: MacId)
    requires Inv(c, s) && m in s.queues
    ensures Known(s, m)
  {
  }

  lemma OwnerKnown(c: Config, s: State, slot: nat)
    requires Inv(c, s) && Sound(c, s) && slot < c.total
    ensures slot in c.slots && Known(s, c.slots[slot])
  {
  }

  lemma NowOfSend(c: Config, s: State, k: nat)
    requires Enabled(s, Fire(k)) && s.events[k].ev.SendDown?
    ensures Do(c, s, Fire(k)).now == s.events[k].at
  {
    hide HandOverF, StartTransmissionF;
    var s0, o := Pop(s, k), s.events[k].ev.mac;
    if Known(s0, o) && s0.tr.peeked.Some? && s0.tr.windows != [] {
      SendFrames(c, s0, o, s.events[k].ev.remaining);
    }
  }

  lemma NowOfSession(c: Config, s: State, k: nat, slot: nat)
    requires Enabled(s, Fire(k)) && OpensAt(s.events[k], slot) && slot in c.slots && Known(s, c.slots[slot])
    ensures Do(c, s, Fire(k)).now == s.events[k].at && Do(c, s, Fire(k)) == ScheduleSessionF(c, Pop(s, k), slot)
  {
    hide StartTransmissionF, Same;
    var s0, o, n := Pop(s, k), c.slots[slot], 1 + Same(c.slots, c.slots[slot], slot + 1);
    DrainQueue(c, OpenF(c, s0, slot, n), o, c.slotUs * n, o);
  }

  // ---------------------------------------------------------------- the owner's next session

  lemma DrainPeeks(c: Config, s: State, m: MacId, us: nat)
    requires Known(s, m) && s.tr.windows != [] && Live(s.queues[m].items, s.queues[m].maxDelay, s.now) != []
    requires TxTime(c.bps, Live(s.queues[m].items, s.queues[m].maxDelay, s.now)[0].packet.size) < 1000 * us
    ensures var r := StartTransmissionF(c, s, m, us);
            |r.events| == |s.events| + 1 && s.events <= r.events && var p := r.events[|s.events|];
            p.ev.SendDown? && p.ev.mac == m
  {
    hide TxTime, Live, Dead, Expire;
  }

  lemma RescheduleSends(c: Config, s: State, slot: nat, n: nat)
    ensures Sends(RescheduleF(c, s, slot, n).events) == Sends(s.events)
  {
    EventsAppend(s.events, RescheduleF(c, s, slot, n).events[|s.events|]);
  }

  /** Who is first of those still alive. */
  lemma FirstAlive(q: seq<Item>, ahead: seq<Item>, x: Item, delay: int, now: int)
    requires Behind(q, ahead, x) && Alive(x, delay, now)
    ensures Live(q, delay, now) != [] && Live(q, delay, now)[0] in ahead + [x]
  {
    LiveBehind(q, ahead, x, delay, now);
    LiveFrom(ahead, delay, now);
    var live := Live(ahead, delay, now);
    assert (live + [x])[0] == Live(q, delay, now)[0];
  }

  /** The owner's session schedules a send. */
  lemma SessionSends(c: Config, s: State, slot: nat, x: Item, ahead: seq<Item>)
    requires slot in c.slots && Known(s, c.slots[slot]) && Sends(s.events) == []
    requires var q := s.queues[c.slots[slot]]; Behind(q.items, ahead, x) && Alive(x, q.maxDelay, s.now)
    requires forall i :: i in ahead + [x] ==>
               TxTime(c.bps, i.packet.size) < 1000 * (c.slotUs * (1 + Same(c.slots, c.slots[slot], slot + 1)))
    ensures var r := ScheduleSessionF(c, s, slot);
            |Sends(r.events)| == 1 && Sends(r.events)[0].ev.SendDown? && Sends(r.events)[0].ev.mac == c.slots[slot]
  {
    hide TxTime, Same, Live, Dead, Alive, StartTransmissionF, RescheduleF, Behind;
    var m, n := c.slots[slot], 1 + Same(c.slots, c.slots[slot], slot + 1);
    var q := s.queues[m];
    FirstAlive(q.items, ahead, x, q.maxDelay, s.now);
    var s1 := OpenF(c, s, slot, n);
    var r := StartTransmissionF(c, s1, m, c.slotUs * n);
    DrainPeeks(c, s1, m, c.slotUs * n);
    assert r.events == s.events + [r.events[|s.events|]];
    EventsAppend(s.events, r.events[|s.events|]);
    RescheduleSends(c, r, slot, n);
  }

  // ---------------------------------------------------------------- when sessions open

  lemma NextOpens(c: Config, s: State, f: nat, j: nat)
    requires Covered(c) && Inv(c, s) && j < |Runs(c, 0)| && f * |Runs(c, 0)| + j == |s.tr.windows|
    ensures NextWindow(c, s) == Expected(c, s.tr.startedAt + 10, f, j)
  {
    hide AirOk, Accounts, QueuesOk, Sending, Runs, Same, Expected;
    SlotOfNext(c, s);
    var v := NextWindow(c, s);
    OpenedOk(c, v.slot, v.start);
    var ws := s.tr.windows + [v];
    assert WindowsOk(c, ws, s.tr.startedAt) by {
      if s.tr.windows != [] {
        assert Follows(c, Last(s.tr.windows), v);
      }
    }
    SessionIs(c, ws, s.tr.startedAt, f, j);
  }

  lemma Product(a: nat, b: nat, x: nat)
    requires a <= b
    ensures x * a <= x * b
  {
  }

  /** Within a frame the sessions open in order, and before the next frame. */
  lemma Offsets(c: Config, i: nat, j: nat)
    requires Covered(c) && i <= j < |Runs(c, 0)|
    ensures c.slotUs * Runs(c, 0)[i].slot + c.guardUs * i <= c.slotUs * Runs(c, 0)[j].slot + c.guardUs * j
    ensures 1000 * (c.slotUs * Runs(c, 0)[j].slot + c.guardUs * j) <= FrameTime(c)
  {
    hide Runs, Covered;
    FramePartition(c);
    var rs := Runs(c, 0);
    if i < j {
      RunsAscend(c, rs, 0, i, j);
    }
    if j < |rs| - 1 {
      RunsAscend(c, rs, 0, j, |rs| - 1);
    }
    Product(rs[i].slot, rs[j].slot, c.slotUs);
    Product(i, j, c.guardUs);
    Product(rs[j].slot, c.total, c.slotUs);
    Product(j, |rs|, c.guardUs);
  }

  lemma EarlierFrame(f: nat, g: nat, i: nat, j: nat, R: nat)
    requires i < R && j < R && f * R + i <= g * R + j
    ensures f <= g && (f == g ==> i <= j)
  {
    if g < f {
      Product(g + 1, f, R);
      NextMultiple(g, R);
      assert false;
    }
  }

  lemma FramesApart(f: nat, g: nat, t: nat, a: nat, b: nat)
    requires f < g && a <= t
    ensures f * t + a <= g * t + b
  {
    Product(f + 1, g, t);
    NextMultiple(f, t);
  }

  /** Sessions open in the order of their numbers. */
  lemma StartsAscend(c: Config, base: int, f: nat, i: nat, g: nat, j: nat)
    requires Covered(c) && i < |Runs(c, 0)| && j < |Runs(c, 0)|
    requires f * |Runs(c, 0)| + i <= g * |Runs(c, 0)| + j
    ensures Expected(c, base, f, i).start <= Expected(c, base, g, j).start
  {
    hide Runs, Covered, FrameTime;
    EarlierFrame(f, g, i, j, |Runs(c, 0)|);
    if f == g {
      Offsets(c, i, j);
    } else {
      Offsets(c, i, i);
      FramesApart(f, g, FrameTime(c), 1000 * (c.slotUs * Runs(c, 0)[i].slot + c.guardUs * i),
                  1000 * (c.slotUs * Runs(c, 0)[j].slot + c.guardUs * j));
    }
  }

  /** The end of session j of frame f. */
  function Deadline(c: Config, startedAt: int, f: nat, j: nat): int
    requires Covered(c) && j < |Runs(c, 0)|
  {
    Expected(c, startedAt + 10, f, j).start + Expected(c, startedAt + 10, f, j).len
  }

  lemma DeadlinesAscend(c: Config, startedAt: int, f: nat, g: nat, j: nat)
    requires Covered(c) && j < |Runs(c, 0)| && f <= g
    ensures Deadline(c, startedAt, f, j) <= Deadline(c, startedAt, g, j)
  {
    hide Runs, Covered, FrameTime;
    Product(f, g, FrameTime(c));
  }

  /** Session j of frame f is still to open. */
  predicate Before(c: Config, s: State, f: nat, j: nat)
    requires Covered(c)
  {
    |s.tr.windows| <= f * |Runs(c, 0)| + j
  }

  /** It is the last one opened, and its owner has a send pending. */
  predicate Promised(c: Config, s: State, m: MacId, f: nat, j: nat)
    requires Covered(c)
  {
    |s.tr.windows| == f * |Runs(c, 0)| + j + 1 && |Sends(s.events)| == 1
    && Sends(s.events)[0].ev.SendDown? && Sends(s.events)[0].ev.mac == m
  }

  /** Nothing happens after the deadline before the session has sent something. */
  lemma PromisedSoon(c: Config, s: State, m: MacId, f: nat, j: nat, t: int)
    requires Covered(c) && Inv(c, s) && j < |Runs(c, 0)| && Promised(c, s, m, f, j) && NoEventBefore(s, t)
    ensures t < Deadline(c, s.tr.startedAt, f, j)
  {
    hide AirOk, Accounts, QueuesOk, Runs, WindowsOk, Expected, TxTime;
    SendsAreSends(s.events);
    var p := Sends(s.events)[0];
    assert SendOk(c, s, p);
    SessionIs(c, s.tr.windows, s.tr.startedAt, f, j);
    assert Last(s.tr.windows) == Expected(c, s.tr.startedAt + 10, f, j);
  }

  lemma BeforeSoon(c: Config, s: State, f: nat, j: nat, t: int)
    requires Covered(c) && Inv(c, s) && s.active && j < |Runs(c, 0)| && Before(c, s, f, j) && NoEventBefore(s, t)
    ensures t <= Expected(c, s.tr.startedAt + 10, f, j).start
  {
    hide AirOk, Accounts, QueuesOk, Runs, WindowsOk, Expected, Sending, Covered, Opened;
    assert SessionEvents(s.events) == [NextSession(c, s)];
    SendsAreSends(s.events);
    assert SessionEvents(s.events)[0] in s.events;
    var g, i := Position(|s.tr.windows|, |Runs(c, 0)|);
    NextOpens(c, s, g, i);
    NextAt(c, s);
    StartsAscend(c, s.tr.startedAt + 10, g, i, f, j);
  }

  lemma NextAt(c: Config, s: State)
    requires Covered(c) && Inv(c, s)
    ensures NextWindow(c, s).start == NextSession(c, s).at
  {
  }

  // ---------------------------------------------------------------- the waiting bound

  /** A frame of `m` with item `x` went out between the two states, before `due`. */
  predicate Delivered(s: State, e: State, m: MacId, x: Item, due: int) {
    exists i :: |s.tr.air| <= i < |e.tr.air| && IsFrame(e.tr.air[i], m, x, due)
  }

  predicate IsFrame(f: Frame, m: MacId, x: Item, due: int) {
    f.mac == m && f.item == x && f.at < due
  }

  /** All these packets fit run `j`. */
  predicate FitRun(c: Config, xs: seq<Item>, j: nat)
    requires Covered(c) && j < |Runs(c, 0)|
  {
    forall i :: i in xs ==> TxTime(c.bps, i.packet.size) < 1000 * (c.slotUs * Runs(c, 0)[j].count)
  }

  /** `x` waits at `m`, fits like everything before it, and lives until `due`. */
  predicate Waits(c: Config, s: State, m: MacId, x: Item, ahead: seq<Item>, j: nat, due: int)
    requires Covered(c) && j < |Runs(c, 0)|
  {
    && s.active && m in s.queues && Runs(c, 0)[j].mac == m
    && Behind(s.queues[m].items, ahead, x) && FitRun(c, ahead + [x], j) && due <= x.tstamp + s.queues[m].maxDelay
  }

  lemma {:induction false} AirGrows(c: Config, s: State, ls: seq<Label>)
    requires Legal(c, s, ls)
    ensures s.tr.air <= Exec(c, s, ls).tr.air
    decreases |ls|
  {
    hide Do, Enabled;
    if ls != [] {
      AirStep(c, s, ls[0]);
      AirGrows(c, Do(c, s, ls[0]), ls[1..]);
    }
  }

  lemma AirStep(c: Config, s: State, l: Label)
    requires Enabled(s, l)
    ensures s.tr.air <= Do(c, s, l).tr.air
  {
    hide ScheduleSessionF, SendPacketDownF, EnqueueF;
    if l.Fire? {
      match s.events[l.k].ev
      case StartSessions => SessionAir(c, Pop(s, l.k), 0);
      case Session(slot) => SessionAir(c, Pop(s, l.k), slot);
      case SendDown(m, r) =>
        if Known(s, m) && s.tr.peeked.Some? && s.tr.windows != [] { SendAir(c, Pop(s, l.k), m, r); }
    }
  }

  lemma SessionAir(c: Config, s: State, slot: nat)
    ensures ScheduleSessionF(c, s, slot).tr.air == s.tr.air
  {
    hide StartTransmissionF, Same;
    if slot in c.slots && Known(s, c.slots[slot]) {
      var o, n := c.slots[slot], 1 + Same(c.slots, c.slots[slot], slot + 1);
      DrainQueue(c, OpenF(c, s, slot, n), o, c.slotUs * n, o);
    }
  }

  lemma SendAir(c: Config, s: State, o: MacId, rem: nat)
    requires Known(s, o) && s.tr.peeked.Some? && s.tr.windows != []
    ensures s.tr.air <= SendPacketDownF(c, s, o, rem).tr.air
  {
    hide HandOverF, StartTransmissionF, DequeueF;
    HandOverMoves(s, o, o);
    if !HandOverF(s, o).fault { DrainQueue(c, HandOverF(s, o), o, rem / 1000, o); }
  }

  lemma Later(c: Config, s: State, l: Label, ls: seq<Label>, m: MacId, x: Item, due: int)
    requires Enabled(s, l) && Legal(c, Do(c, s, l), ls) && s.tr.air <= Do(c, s, l).tr.air
    requires Delivered(Do(c, s, l), Exec(c, Do(c, s, l), ls), m, x, due)
    ensures Delivered(s, Exec(c, Do(c, s, l), ls), m, x, due)
  {
    hide Do, Enabled;
  }

  lemma TakenNow(c: Config, s: State, r: State, ls: seq<Label>, m: MacId, x: Item, due: int)
    requires Legal(c, r, ls) && Taken(s, r, m, x) && r.now < due
    ensures Delivered(s, Exec(c, r, ls), m, x, due)
  {
    AirGrows(c, r, ls);
    assert IsFrame(Exec(c, r, ls).tr.air[|s.tr.air|], m, x, due);
  }

  function SlotOf(ev: Event): nat {
    if ev.Session? then ev.slot else 0
  }

  /** Which run of slots a session event opens. */
  lemma TurnOf(c: Config, s: State, k: nat, f: nat, j: nat)
    requires Inv(c, s) && Sound(c, s) && Enabled(s, Fire(k)) && !s.events[k].ev.SendDown?
    requires j < |Runs(c, 0)| && |s.tr.windows| == f * |Runs(c, 0)| + j
    ensures var slot := SlotOf(s.events[k].ev);
            && slot in c.slots && c.slots[slot] == Runs(c, 0)[j].mac
            && 1 + Same(c.slots, c.slots[slot], slot + 1) == Runs(c, 0)[j].count
            && Known(s, c.slots[slot]) && Do(c, s, Fire(k)) == ScheduleSessionF(c, Pop(s, k), slot)
    ensures Sends(Pop(s, k).events) == [] && Do(c, s, Fire(k)).now == s.events[k].at
  {
    hide AirOk, Accounts, QueuesOk, WindowsOk, Runs, TxTime, ScheduleSessionF, Expected, Same, Do, Sending;
    NextOpens(c, s, f, j);
    ExpectedIs(c, s, f, j);
    NoSendAtSession(c, s, k);
    SlotOfNext(c, s);
    EventsPop(s.events, k);
    var slot := SlotOf(s.events[k].ev);
    OwnerKnown(c, s, slot);
    NowOfSession(c, s, k, slot);
    assert NextWindow(c, s) == Opened(c, slot, NextSession(c, s).at);
  }

  /** Its own session opens: then a send is promised. */
  lemma OwnSession(c: Config, s: State, l: Label, m: MacId, x: Item, ahead: seq<Item>, f: nat, j: nat, due: int)
    requires Inv(c, s) && Sound(c, s) && Enabled(s, l) && OpensSession(s, l)
    requires j < |Runs(c, 0)| && Waits(c, s, m, x, ahead, j, due) && |s.tr.windows| == f * |Runs(c, 0)| + j
    requires Do(c, s, l).now < due && Do(c, s, l).tr.windows == s.tr.windows + [NextWindow(c, s)]
    ensures Promised(c, Do(c, s, l), m, f, j)
  {
    hide Inv, Runs, TxTime, ScheduleSessionF, Same, Do, NextWindow, Enabled, Behind;
    TurnOf(c, s, l.k, f, j);
    SessionSends(c, Pop(s, l.k), SlotOf(s.events[l.k].ev), x, ahead);
  }

  lemma ExpectedIs(c: Config, s: State, f: nat, j: nat)
    requires Covered(c) && j < |Runs(c, 0)|
    ensures var v, r := Expected(c, s.tr.startedAt + 10, f, j), Runs(c, 0)[j];
            v.mac == r.mac && v.count == r.count && v.slot == r.slot && v.len == 1000 * (c.slotUs * r.count)
  {
  }

  /** The session that `x` waits for is still to open, or has promised a send. */
  ghost predicate InTime(c: Config, s: State, m: MacId, f: nat, j: nat)
    requires Covered(c)
  {
    Before(c, s, f, j) || Promised(c, s, m, f, j)
  }

  lemma InTimeSoon(c: Config, s: State, m: MacId, f: nat, j: nat, t: int)
    requires Covered(c) && Inv(c, s) && s.active && j < |Runs(c, 0)| && InTime(c, s, m, f, j) && NoEventBefore(s, t)
    requires 0 < Expected(c, s.tr.startedAt + 10, f, j).len
    ensures t < Deadline(c, s.tr.startedAt, f, j)
  {
    hide Inv, Covered, Runs, Promised, Before, Expected, NoEventBefore;
    if Promised(c, s, m, f, j) {
      PromisedSoon(c, s, m, f, j, t);
    } else {
      BeforeSoon(c, s, f, j, t);
    }
  }

  /** No pending event is earlier than a step. */
  lemma StepTime(c: Config, s: State, l: Label)
    requires Inv(c, s) && Sound(c, s) && Enabled(s, l)
    ensures NoEventBefore(s, Do(c, s, l).now)
  {
    hide AirOk, Accounts, QueuesOk, WindowsOk, Sending, HandOverF, StartTransmissionF, ScheduleSessionF,
      SendPacketDownF;
    if l.Fire? {
      if s.events[l.k].ev.SendDown? {
        NowOfSend(c, s, l.k);
      } else {
        NoSendAtSession(c, s, l.k);
        SlotOfNext(c, s);
        var e := s.events[l.k].ev;
        OwnerKnown(c, s, if e.StartSessions? then 0 else e.slot);
        NowOfSession(c, s, l.k, if e.StartSessions? then 0 else e.slot);
      }
    }
  }

  /** After a step that neither takes the packet nor makes it pass one before it, the same session is due; and
      after one that does, the next of its owner's. */
  lemma StillInTime(c: Config, s: State, l: Label, m: MacId, x: Item, ahead: seq<Item>, f: nat, j: nat, due: int)
    returns (left: seq<Item>, g: nat)
    requires Inv(c, s) && Sound(c, s) && Enabled(s, l) && j < |Runs(c, 0)| && Waits(c, s, m, x, ahead, j, due)
    requires InTime(c, s, m, f, j) && Do(c, s, l).now < due
    ensures Taken(s, Do(c, s, l), m, x) ||
      (Closer(s, Do(c, s, l), m, x, ahead, left) && f <= g && g + |left| <= f + |ahead|
       && InTime(c, Do(c, s, l), m, g, j))
    ensures Do(c, s, l).active && Do(c, s, l).tr.startedAt == s.tr.startedAt
  {
    hide Inv, Covered, Runs, Taken, Closer, TxTime, Do, FitRun;
    left := StepMoves(c, s, l, m, x, ahead);
    g := f;
    if !Taken(s, Do(c, s, l), m, x) {
      if Promised(c, s, m, f, j) {
        PromisedStep(c, s, l, m, f, j);
        if Sends1(s, l, m) {
          g := f + 1;
          NextMultiple(f, |Runs(c, 0)|);
        }
        CloserMeans(s, Do(c, s, l), m, x, ahead, left);
      } else if OpensSession(s, l) && |s.tr.windows| == f * |Runs(c, 0)| + j {
        OwnSession(c, s, l, m, x, ahead, f, j, due);
        CloserMeans(s, Do(c, s, l), m, x, ahead, left);
      } else {
        CloserMeans(s, Do(c, s, l), m, x, ahead, left);
      }
    }
  }

  lemma CloserMeans(s: State, r: State, m: MacId, x: Item, ahead: seq<Item>, left: seq<Item>)
    requires Closer(s, r, m, x, ahead, left)
    ensures |left| <= |ahead|
  {
  }

  /** While a send is promised, only that send can change who is promised what. */
  lemma PromisedStep(c: Config, s: State, l: Label, m: MacId, f: nat, j: nat)
    requires Covered(c) && Inv(c, s) && Enabled(s, l) && s.active && Promised(c, s, m, f, j)
    ensures !OpensSession(s, l) && (l.Fire? ==> Sends1(s, l, m))
  {
    hide AirOk, Accounts, QueuesOk, WindowsOk, Runs, TxTime;
    if l.Fire? {
      if OpensSession(s, l) {
        NoSendAtSession(c, s, l.k);
      } else {
        EventsPop(s.events, l.k);
      }
    }
  }

  /** The waiting bound: the packet is on the air by the end of the owner's session that comes when each packet
      before it has had one. */
  lemma {:induction false} Waiting(c: Config, s: State, ls: seq<Label>, m: MacId, x: Item, ahead: seq<Item>,
                                   f: nat, j: nat, due: int)
    requires Inv(c, s) && Sound(c, s) && Legal(c, s, ls) && j < |Runs(c, 0)| && Waits(c, s, m, x, ahead, j, due)
    requires InTime(c, s, m, f, j) && Deadline(c, s.tr.startedAt, f + |ahead|, j) <= due
    requires due <= Exec(c, s, ls).now
    ensures Delivered(s, Exec(c, s, ls), m, x, due)
    decreases |ls|
  {
    hide Inv, Covered, Runs, Do, Enabled, InTime, Waits, Taken, Closer, Deadline, Expected, Delivered, NoEventBefore;
    SessionHasTime(c, s, m, x, ahead, f, j, due);
    DeadlinesAscend(c, s.tr.startedAt, f, f + |ahead|, j);
    assert s.active by { WaitsActive(c, s, m, x, ahead, j, due); }
    if ls == [] {
      NowFirst(c, s);
      InTimeSoon(c, s, m, f, j, s.now);
    } else {
      var r := Do(c, s, ls[0]);
      StepTime(c, s, ls[0]);
      InTimeSoon(c, s, m, f, j, r.now);
      StepKeeps(c, s, ls[0]);
      AirStep(c, s, ls[0]);
      var left, g := StillInTime(c, s, ls[0], m, x, ahead, f, j, due);
      if Taken(s, r, m, x) {
        TakenNow(c, s, r, ls[1..], m, x, due);
      } else {
        WaitsOn(c, s, r, m, x, ahead, left, j, due);
        DeadlinesAscend(c, s.tr.startedAt, g + |left|, f + |ahead|, j);
        Waiting(c, r, ls[1..], m, x, left, g, j, due);
        Later(c, s, ls[0], ls[1..], m, x, due);
      }
    }
  }

  lemma NowFirst(c: Config, s: State)
    requires Inv(c, s)
    ensures NoEventBefore(s, s.now)
  {
  }

  lemma WaitsActive(c: Config, s: State, m: MacId, x: Item, ahead: seq<Item>, j: nat, due: int)
    requires Covered(c) && j < |Runs(c, 0)| && Waits(c, s, m, x, ahead, j, due)
    ensures s.active
  {
  }

  lemma SessionHasTime(c: Config, s: State, m: MacId, x: Item, ahead: seq<Item>, f: nat, j: nat, due: int)
    requires Covered(c) && j < |Runs(c, 0)| && Waits(c, s, m, x, ahead, j, due)
    ensures 0 < Expected(c, s.tr.startedAt + 10, f, j).len
  {
    hide TxTime, Runs, Covered;
    assert x in ahead + [x];
  }

  lemma WaitsOn(c: Config, s: State, r: State, m: MacId, x: Item, ahead: seq<Item>, left: seq<Item>, j: nat, due: int)
    requires Covered(c) && j < |Runs(c, 0)| && Waits(c, s, m, x, ahead, j, due)
    requires Closer(s, r, m, x, ahead, left) && r.active
    ensures Waits(c, r, m, x, left, j, due)
  {
    hide TxTime, Runs, Covered;
    forall i | i in left + [x] ensures i in ahead + [x] {
    }
  }

  /** When the last session opened, or the first one will. */
  function ChainTime(s: State): int {
    if s.tr.windows == [] then s.tr.startedAt + 10 else Last(s.tr.windows).start
  }

  /** That many frame times later, and one session of run `j`. */
  function WaitingTime(c: Config, s: State, frames: nat, j: nat): int
    requires Covered(c) && j < |Runs(c, 0)|
  {
    ChainTime(s) + frames * FrameTime(c) + 1000 * (c.slotUs * Runs(c, 0)[j].count)
  }

  lemma FramesLater(c: Config, startedAt: int, f: nat, p: nat, j: nat)
    requires Covered(c) && j < |Runs(c, 0)|
    ensures Expected(c, startedAt, f + p, j).start == Expected(c, startedAt, f, j).start + p * FrameTime(c)
  {
    hide Runs, Covered, FrameTime;
    assert (f + p) * FrameTime(c) == f * FrameTime(c) + p * FrameTime(c);
  }

  /** The next session of run `j` opens within a frame time. */
  lemma NextTurn(c: Config, s: State, j: nat) returns (f: nat)
    requires Covered(c) && Inv(c, s) && s.active && j < |Runs(c, 0)|
    ensures Before(c, s, f, j) && Expected(c, s.tr.startedAt + 10, f, j).start <= ChainTime(s) + FrameTime(c)
  {
    hide AirOk, Accounts, QueuesOk, WindowsOk, Sending, Runs, Covered, FrameTime;
    var R, base := |Runs(c, 0)|, s.tr.startedAt + 10;
    if s.tr.windows == [] {
      f := 0;
      Offsets(c, j, j);
      assert 0 * FrameTime(c) == 0;
    } else {
      var g, i := Position(|s.tr.windows| - 1, R);
      SessionIs(c, s.tr.windows, s.tr.startedAt, g, i);
      NextMultiple(g, R);
      f := if i < j then g else g + 1;
      StartsAscend(c, base, f, j, g + 1, i);
      FramesLater(c, base, g, 1, i);
    }
  }

  lemma Enough(c: Config, s: State, f: nat, p: nat, j: nat)
    requires Covered(c) && j < |Runs(c, 0)|
    requires Expected(c, s.tr.startedAt + 10, f, j).start <= ChainTime(s) + FrameTime(c)
    ensures Deadline(c, s.tr.startedAt, f + p, j) <= WaitingTime(c, s, p + 1, j)
  {
    hide Runs, Covered, FrameTime, ChainTime;
    FramesLater(c, s.tr.startedAt + 10, f, p, j);
    NextMultiple(p, FrameTime(c));
  }

  /** In any run whose chain has started: a packet with p packets before it, all of which fit some run of its
      owner's slots, is on the air within p + 1 frame times and that session, if it lives that long. The time
      counts from the opening of the last session. */
  lemma WaitingBound(c: Config, s0: State, pre: seq<Label>, ls: seq<Label>, m: MacId, x: Item, ahead: seq<Item>, j: nat)
    requires Covered(c) && Initial(c, s0) && Legal(c, s0, pre) && Legal(c, Exec(c, s0, pre), ls)
    requires j < |Runs(c, 0)|
    requires var s := Exec(c, s0, pre);
             var due := WaitingTime(c, s, |ahead| + 1, j);
             Waits(c, s, m, x, ahead, j, due) && due <= Exec(c, s, ls).now
    ensures var s := Exec(c, s0, pre);
            Delivered(s, Exec(c, s, ls), m, x, WaitingTime(c, s, |ahead| + 1, j))
    ensures var s := Exec(c, s0, pre); s.tr.windows != [] ==> ChainTime(s) <= s.now
  {
    hide Covered, Initial, Legal, Exec, Runs, AirOk, Accounts, QueuesOk, WindowsOk, Sending, Waits, Delivered,
      WaitingTime, Deadline, Expected;
    Reached(c, s0, pre);
    var s := Exec(c, s0, pre);
    var due := WaitingTime(c, s, |ahead| + 1, j);
    assert s.active by { WaitsActive(c, s, m, x, ahead, j, due); }
    var f := NextTurn(c, s, j);
    Enough(c, s, f, |ahead|, j);
    Waiting(c, s, ls, m, x, ahead, f, j, due);
  }

  // ---------------------------------------------------------------- delivery in the session

  /** `x` is measured and its sending is due at `t`. */
  predicate Scheduled(s: State, m: MacId, x: Item, t: int) {
    && s.tr.windows != [] && s.tr.peeked.Some? && s.tr.peeked.value.item == x && m in s.queues
    && |Sends(s.events)| == 1 && Sends(s.events)[0].ev.SendDown? && Sends(s.events)[0].ev.mac == m
    && Sends(s.events)[0].at == t && Alive(x, s.queues[m].maxDelay, t)
  }

  /** A frame of `m` with `x` went out at `t` in session `n`. */
  predicate SentAt(e: State, m: MacId, x: Item, t: int, n: nat) {
    exists i :: 0 <= i < |e.tr.air| && IsFrameAt(e.tr.air[i], m, x, t, n)
  }

  predicate IsFrameAt(f: Frame, m: MacId, x: Item, t: int, n: nat) {
    f.mac == m && f.item == x && f.at == t && f.session == n
  }

  lemma ScheduledFires(c: Config, s: State, k: nat, m: MacId, x: Item, t: int)
    requires Inv(c, s) && Enabled(s, Fire(k)) && Scheduled(s, m, x, t)
    ensures SentAt(Do(c, s, Fire(k)), m, x, t, |s.tr.windows| - 1)
  {
    hide AirOk, Accounts, QueuesOk, WindowsOk, TxTime, HandOverF, StartTransmissionF, Sending;
    assert s.events[k].ev.SendDown? by {
      if !s.events[k].ev.SendDown? { NoSendAtSession(c, s, k); }
    }
    PopSend(c, s, k);
    EventsPop(s.events, k);
    var s1 := Pop(s, k);
    DequeueTakesPeeked(s.queues[m], x, t);
    HandOverMoves(s1, m, m);
    var h := HandOverF(s1, m);
    DrainQueue(c, h, m, s.events[k].ev.remaining / 1000, m);
    assert IsFrameAt(Do(c, s, Fire(k)).tr.air[|s.tr.air|], m, x, t, |s.tr.windows| - 1);
  }

  lemma ScheduledStays(c: Config, s: State, l: Label, m: MacId, x: Item, t: int)
    requires Inv(c, s) && Enabled(s, l) && !l.Fire? && s.active && Scheduled(s, m, x, t)
    ensures Scheduled(Do(c, s, l), m, x, t) && Do(c, s, l).tr.windows == s.tr.windows && Do(c, s, l).active
  {
    hide AirOk, Accounts, QueuesOk, WindowsOk, Sending, Live, Dead, Expire;
  }

  lemma SentStays(c: Config, s: State, ls: seq<Label>, m: MacId, x: Item, t: int, n: nat)
    requires Legal(c, s, ls) && SentAt(s, m, x, t, n)
    ensures SentAt(Exec(c, s, ls), m, x, t, n)
  {
    AirGrows(c, s, ls);
    var i :| 0 <= i < |s.tr.air| && IsFrameAt(s.tr.air[i], m, x, t, n);
    assert IsFrameAt(Exec(c, s, ls).tr.air[i], m, x, t, n);
  }

  lemma {:induction false} ScheduledGoes(c: Config, s: State, ls: seq<Label>, m: MacId, x: Item, t: int)
    requires Inv(c, s) && Sound(c, s) && s.active && Legal(c, s, ls) && Scheduled(s, m, x, t) && t < Exec(c, s, ls).now
    ensures SentAt(Exec(c, s, ls), m, x, t, |s.tr.windows| - 1)
    decreases |ls|
  {
    hide Inv, Sound, Do, Enabled, SentAt, NoEventBefore;
    if ls == [] {
      NowFirst(c, s);
      assert false by { ScheduledLater(s, m, x, t); }
    } else {
      StepKeeps(c, s, ls[0]);
      if ls[0].Fire? {
        ScheduledFires(c, s, ls[0].k, m, x, t);
        SentStays(c, Do(c, s, ls[0]), ls[1..], m, x, t, |s.tr.windows| - 1);
      } else {
        ScheduledStays(c, s, ls[0], m, x, t);
        ScheduledGoes(c, Do(c, s, ls[0]), ls[1..], m, x, t);
      }
    }
  }

  lemma ScheduledLater(s: State, m: MacId, x: Item, t: int)
    requires Scheduled(s, m, x, t) && NoEventBefore(s, s.now)
    ensures s.now <= t
  {
    SendsAreSends(s.events);
    assert Sends(s.events)[0] in s.events;
  }

  /** The first live packet of the owner, measured when the session opens. */
  lemma SessionSchedules(c: Config, s: State, slot: nat, x: Item, tx: nat)
    requires slot in c.slots && Known(s, c.slots[slot]) && Sends(s.events) == []
    requires var q := s.queues[c.slots[slot]];
             Live(q.items, q.maxDelay, s.now) != [] && Live(q.items, q.maxDelay, s.now)[0] == x
             && Alive(x, q.maxDelay, s.now + tx)
    requires tx == TxTime(c.bps, x.packet.size) < 1000 * (c.slotUs * (1 + Same(c.slots, c.slots[slot], slot + 1)))
    ensures Scheduled(ScheduleSessionF(c, s, slot), c.slots[slot], x, s.now + tx)
  {
    hide TxTime, Same, Live, Dead, Expire, RescheduleF;
    var m, n := c.slots[slot], 1 + Same(c.slots, c.slots[slot], slot + 1);
    var s1 := OpenF(c, s, slot, n);
    var r := StartTransmissionF(c, s1, m, c.slotUs * n);
    assert r.events == s.events + [Pending(s.now + tx, SendDown(m, 1000 * (c.slotUs * n) - tx))];
    EventsAppend(s.events, Pending(s.now + tx, SendDown(m, 1000 * (c.slotUs * n) - tx)));
    RescheduleSends(c, r, slot, n);
    RescheduleRest(c, r, slot, n);
  }

  lemma RescheduleRest(c: Config, s: State, slot: nat, n: nat)
    ensures var r := RescheduleF(c, s, slot, n); r.tr == s.tr && r.queues == s.queues
  {
  }

  lemma FirstScheduled(c: Config, s: State, k: nat, x: Item)
    requires Inv(c, s) && Sound(c, s) && Enabled(s, Fire(k)) && !s.events[k].ev.SendDown?
    requires var w, tx := NextWindow(c, s), TxTime(c.bps, x.packet.size);
             && w.mac in s.queues && tx < w.len
             && var q := s.queues[w.mac];
                Live(q.items, q.maxDelay, w.start) != [] && Live(q.items, q.maxDelay, w.start)[0] == x
                && Alive(x, q.maxDelay, w.start + tx)
    ensures var w, r := NextWindow(c, s), Do(c, s, Fire(k));
            Scheduled(r, w.mac, x, w.start + TxTime(c.bps, x.packet.size))
            && |r.tr.windows| == |s.tr.windows| + 1 && r.active
  {
    hide AirOk, Accounts, QueuesOk, WindowsOk, Sending, Do, Scheduled, TxTime, Same, ScheduleSessionF;
    NoSendAtSession(c, s, k);
    SlotOfNext(c, s);
    EventsPop(s.events, k);
    var e := s.events[k].ev;
    var slot := if e.StartSessions? then 0 else e.slot;
    OwnerKnown(c, s, slot);
    NowOfSession(c, s, k, slot);
    SessionSchedules(c, Pop(s, k), slot, x, TxTime(c.bps, x.packet.size));
    OpensOne(c, Pop(s, k), slot);
  }

  /** The packet that is first when its owner's session opens, that fits the session and outlives its own
      transmission goes out in that session, after exactly its transmission time, whatever else happens. The
      invariant holds in every reachable state. */
  lemma SessionDelivers(c: Config, s0: State, pre: seq<Label>, k: nat, ls: seq<Label>, x: Item)
    requires Covered(c) && Initial(c, s0) && Legal(c, s0, pre)
    requires var s := Exec(c, s0, pre);
             Inv(c, s) && Enabled(s, Fire(k)) && !s.events[k].ev.SendDown? && Legal(c, Do(c, s, Fire(k)), ls)
    requires var s := Exec(c, s0, pre);
             var w, tx := NextWindow(c, s), TxTime(c.bps, x.packet.size);
             && w.mac in s.queues && tx < w.len && w.start + tx < Exec(c, Do(c, s, Fire(k)), ls).now
             && var q := s.queues[w.mac];
                Live(q.items, q.maxDelay, w.start) != [] && Live(q.items, q.maxDelay, w.start)[0] == x
                && Alive(x, q.maxDelay, w.start + tx)
    ensures var s := Exec(c, s0, pre);
            var w := NextWindow(c, s);
            SentAt(Exec(c, Do(c, s, Fire(k)), ls), w.mac, x, w.start + TxTime(c.bps, x.packet.size), |s.tr.windows|)
  {
    hide Covered, Initial, Legal, Exec, Inv, Do, Enabled, SentAt, Scheduled, TxTime, Live, Alive, NextWindow;
    Reached(c, s0, pre);
    var s := Exec(c, s0, pre);
    FirstScheduled(c, s, k, x);
    StepKeeps(c, s, Fire(k));
    var w := NextWindow(c, s);
    ScheduledGoes(c, Do(c, s, Fire(k)), ls, w.mac, x, w.start + TxTime(c.bps, x.packet.size));
  }

  lemma OpensOne(c: Config, s: State, slot: nat)
    requires slot in c.slots && Known(s, c.slots[slot])
    ensures var r := ScheduleSessionF(c, s, slot); |r.tr.windows| == |s.tr.windows| + 1 && r.active == s.active
  {
    hide StartTransmissionF, Same;
    var o, n := c.slots[slot], 1 + Same(c.slots, c.slots[slot], slot + 1);
    DrainQueue(c, OpenF(c, s, slot, n), o, c.slotUs * n, o);
  }
}
