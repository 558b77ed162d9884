/**
 The drain of a session: it goes on while the next packet fits, so what fits is sent in that very session, and
 when it stops either nothing is left or the next packet no longer fits.
 */
module TdmaDrain {
  import opened Wrappers
  import opened MacQueue
  import opened TdmaModel
  import opened TdmaSafety
  import opened TdmaResults
  import opened TdmaFrames
  import opened TdmaFaults
  import opened TdmaDelivery

  /** The time the packets need on the air, one after the other. */
  function SumTx(bps: pos, xs: seq<Item>): nat {
    if xs == [] then 0 else TxTime(bps, xs[0].packet.size) + SumTx(bps, xs[1..])
  }

  /** From `t` on each of them outlives its own transmission. */
  predicate Outlive(bps: pos, xs: seq<Item>, delay: int, t: int)
    decreases |xs|
  {
    xs == [] ||
    var u := t + TxTime(bps, xs[0].packet.size);
    Alive(xs[0], delay, u) && Outlive(bps, xs[1..], delay, u)
  }

  /** They are all in time for the rest of the session, up to what truncation may cost. */
  predicate Fitting(c: Config, s: State, xs: seq<Item>)
    requires s.tr.windows != []
  {
    var i := |s.tr.windows| - 1;
    SpentIn(s.tr.air, i) + SumTx(c.bps, xs) + 999 * (SentIn(s.tr.air, i) + |xs| - 1) < Last(s.tr.windows).len
  }

  // ---------------------------------------------------------------- queues

  lemma {:induction false} AllLive(xs: seq<Item>, bps: pos, delay: int, t: int, now: int)
    requires Outlive(bps, xs, delay, t) && now <= t
    ensures forall i :: 0 <= i < |xs| ==> Alive(xs[i], delay, now)
    decreases |xs|
  {
    hide TxTime;
    if xs != [] {
      AllLive(xs[1..], bps, delay, t + TxTime(bps, xs[0].packet.size), now);
    }
  }

  lemma {:induction false} LivePrefix(q: seq<Item>, xs: seq<Item>, delay: int, now: int)
    requires xs <= q && forall i :: 0 <= i < |xs| ==> Alive(xs[i], delay, now)
    ensures xs <= Live(q, delay, now)
    decreases |xs|
  {
    if xs != [] {
      LivePrefix(q[1..], xs[1..], delay, now);
      assert xs == [xs[0]] + xs[1..];
    }
  }

  // ---------------------------------------------------------------- the rest of a drain

  /** `xs` heads the owner's queue, the first of them is being sent, and all of them will go. */
  predicate Draining(c: Config, s: State, m: MacId, xs: seq<Item>) {
    && xs != [] && s.tr.windows != [] && m in s.queues && m in s.tr.logs && xs <= s.queues[m].items && Fitting(c, s, xs)
    && var t := Last(s.tr.windows).start + SpentIn(s.tr.air, |s.tr.windows| - 1);
       Scheduled(s, m, xs[0], t + TxTime(c.bps, xs[0].packet.size)) && Outlive(c.bps, xs, s.queues[m].maxDelay, t)
  }

  /** StartTransmission schedules the first packet if all of `xs` still fit. */
  lemma {:induction false} DrainContinues(c: Config, s: State, m: MacId, us: nat, xs: seq<Item>)
    requires Known(s, m) && s.tr.windows != [] && Sends(s.events) == [] && xs != []
    requires Room(s, us) && Fitting(c, s, xs) && Outlive(c.bps, xs, s.queues[m].maxDelay, s.now)
    requires xs <= Live(s.queues[m].items, s.queues[m].maxDelay, s.now)
    ensures Draining(c, StartTransmissionF(c, s, m, us), m, xs)
  {
    hide TxTime, Live, Dead, Expire;
    var delay := s.queues[m].maxDelay;
    var r := StartTransmissionF(c, s, m, us);
    var tx := TxTime(c.bps, xs[0].packet.size);
    assert tx + SumTx(c.bps, xs[1..]) == SumTx(c.bps, xs);
    assert CleanF(s, m).queues[m].items[0] == xs[0];
    assert r.events == s.events + [Pending(s.now + tx, SendDown(m, 1000 * us - tx))];
    EventsAppend(s.events, Pending(s.now + tx, SendDown(m, 1000 * us - tx)));
  }

  /** The scheduled send is the event that fires. */
  lemma {:induction false} ScheduledEvent(c: Config, s: State, k: nat, m: MacId, x: Item, t: int)
    requires Inv(c, s) && Enabled(s, Fire(k)) && Scheduled(s, m, x, t)
    ensures s.events[k].ev.SendDown? && s.events[k].ev.mac == m && s.events[k].at == t
  {
    hide AirOk, Accounts, QueuesOk, WindowsOk, TxTime, Sending;
    if !s.events[k].ev.SendDown? { NoSendAtSession(c, s, k); }
    PopSend(c, s, k);
    EventsPop(s.events, k);
  }

  lemma {:induction false} DequeueFirst(q: Fifo, xs: seq<Item>, now: int)
    requires xs != [] && xs <= q.items && forall i :: 0 <= i < |xs| ==> Alive(xs[i], q.maxDelay, now)
    ensures var (r, i) := DequeueF(q, now);
            i == Some(xs[0]) && xs[1..] <= r.items && r.maxDelay == q.maxDelay
  {
    hide Live, Dead;
    LivePrefix(q.items, xs, q.maxDelay, now);
  }

  /** After the hand-over the rest still fits. */
  lemma {:induction false} HandOverDrains(c: Config, s: State, m: MacId, rem: nat, xs: seq<Item>)
    requires Known(s, m) && s.tr.peeked.Some? && s.tr.windows != [] && Sends(s.events) == []
    requires SendOk(c, s, Pending(s.now, SendDown(m, rem))) && Last(s.tr.windows).start <= s.now
    requires xs != [] && xs <= s.queues[m].items && Fitting(c, s, xs) && s.tr.peeked.value.item == xs[0]
    requires Alive(xs[0], s.queues[m].maxDelay, s.now) && Outlive(c.bps, xs[1..], s.queues[m].maxDelay, s.now)
    ensures var h := HandOverF(s, m);
            && h.fault == s.fault && h.active == s.active && Known(h, m) && h.tr.windows == s.tr.windows
            && h.events == s.events && h.now == s.now
            && h.queues[m].maxDelay == s.queues[m].maxDelay && xs[1..] <= h.queues[m].items
            && h.tr.air == s.tr.air + [Frame(|s.tr.windows| - 1, m, xs[0], s.tr.peeked.value, s.now)]
            && Room(h, rem / 1000) && Fitting(c, h, xs[1..])
  {
    hide TxTime, HandOverF, DequeueF, Room;
    AllLive(xs[1..], c.bps, s.queues[m].maxDelay, s.now, s.now);
    assert forall i :: 0 <= i < |xs| ==> Alive(xs[i], s.queues[m].maxDelay, s.now) by {
      forall i | 0 <= i < |xs| ensures Alive(xs[i], s.queues[m].maxDelay, s.now) {
        if 0 < i { assert xs[i] == xs[1..][i - 1]; }
      }
    }
    DequeueFirst(s.queues[m], xs, s.now);
    HandOverMoves(s, m, m);
    HandOverRoom(c, s, m, rem);
    SentAppend(s.tr.air, Frame(|s.tr.windows| - 1, m, xs[0], s.tr.peeked.value, s.now));
  }

  /** One send of a drain, its event taken off the list. */
  lemma {:induction false} SendDrains(c: Config, s: State, m: MacId, rem: nat, xs: seq<Item>)
    requires Known(s, m) && s.tr.peeked.Some? && s.tr.windows != [] && Sends(s.events) == [] && !s.fault
    requires SendOk(c, s, Pending(s.now, SendDown(m, rem))) && Last(s.tr.windows).start <= s.now
    requires xs != [] && xs <= s.queues[m].items && Fitting(c, s, xs) && s.tr.peeked.value.item == xs[0]
    requires Alive(xs[0], s.queues[m].maxDelay, s.now) && Outlive(c.bps, xs[1..], s.queues[m].maxDelay, s.now)
    ensures var r, f := SendPacketDownF(c, s, m, rem), Frame(|s.tr.windows| - 1, m, xs[0], s.tr.peeked.value, s.now);
            && r.tr.air == s.tr.air + [f] && r.tr.windows == s.tr.windows && r.active == s.active
            && SpentIn(r.tr.air, f.session) == s.now - Last(s.tr.windows).start
            && (1 < |xs| ==> Draining(c, r, m, xs[1..]))
  {
    hide TxTime, HandOverF, StartTransmissionF, Fitting, Draining, SendOk, Outlive;
    HandOverDrains(c, s, m, rem, xs);
    var h := HandOverF(s, m);
    DrainQueue(c, h, m, rem / 1000, m);
    if 1 < |xs| {
      AllLive(xs[1..], c.bps, h.queues[m].maxDelay, h.now, h.now);
      LivePrefix(h.queues[m].items, xs[1..], h.queues[m].maxDelay, h.now);
      DrainContinues(c, h, m, rem / 1000, xs[1..]);
    }
  }

  /** One send of a drain: the frame leaves at its instant, and the next packet is scheduled. */
  lemma {:induction false} DrainingFires(c: Config, s: State, k: nat, m: MacId, xs: seq<Item>)
    requires Inv(c, s) && Enabled(s, Fire(k)) && Draining(c, s, m, xs)
    ensures var r, n := Do(c, s, Fire(k)), |s.tr.windows| - 1;
            var t := Last(s.tr.windows).start + SpentIn(s.tr.air, n) + TxTime(c.bps, xs[0].packet.size);
            && SentAt(r, m, xs[0], t, n) && r.tr.windows == s.tr.windows && r.active == s.active
            && SpentIn(r.tr.air, n) == t - Last(s.tr.windows).start
            && (1 < |xs| ==> Draining(c, r, m, xs[1..]))
  {
    hide AirOk, Accounts, QueuesOk, WindowsOk, TxTime, Sending, SendPacketDownF, SendOk;
    var n := |s.tr.windows| - 1;
    var t := Last(s.tr.windows).start + SpentIn(s.tr.air, n) + TxTime(c.bps, xs[0].packet.size);
    ScheduledEvent(c, s, k, m, xs[0], t);
    PopSend(c, s, k);
    SendOkLater(c, s, k);
    EventsPop(s.events, k);
    SendDrains(c, Pop(s, k), m, s.events[k].ev.remaining, xs);
    assert IsFrameAt(Do(c, s, Fire(k)).tr.air[|s.tr.air|], m, xs[0], t, n);
  }

  /** An arrival or a repeated Start changes nothing of it. */
  lemma {:induction false} DrainingStays(c: Config, s: State, l: Label, m: MacId, xs: seq<Item>)
    requires Inv(c, s) && Enabled(s, l) && !l.Fire? && s.active && Draining(c, s, m, xs)
    ensures Draining(c, Do(c, s, l), m, xs) && Do(c, s, l).tr.windows == s.tr.windows
    ensures Do(c, s, l).active && Do(c, s, l).tr.air == s.tr.air
  {
    hide AirOk, Accounts, QueuesOk, WindowsOk, Sending, TxTime, Outlive, Scheduled;
    var t := Last(s.tr.windows).start + SpentIn(s.tr.air, |s.tr.windows| - 1);
    ScheduledStays(c, s, l, m, xs[0], t + TxTime(c.bps, xs[0].packet.size));
    if l.Arrive? {
      assert s.now <= l.t && NoEventBefore(s, l.t);
      ArrivalKeepsPrefix(c, s, l.t, l.m, l.p, l.h, m, xs);
    }
  }

  lemma {:induction false} ArrivalKeepsPrefix(c: Config, s: State, now: int, k: MacId, p: Packet,
                                              h: WifiMacHeader, m: MacId, xs: seq<Item>)
    requires Known(s, k) && Draining(c, s, m, xs) && NoEventBefore(s, now)
    ensures var r := QueueF(s.(now := now), k, p, h);
            m in r.queues && m in r.tr.logs && xs <= r.queues[m].items && r.queues[m].maxDelay == s.queues[m].maxDelay
            && r.tr.air == s.tr.air && r.tr.windows == s.tr.windows
  {
    hide TxTime, Live, Dead, Expire;
    var t, x := Last(s.tr.windows).start + SpentIn(s.tr.air, |s.tr.windows| - 1), xs[0];
    SendsAreSends(s.events);
    assert Sends(s.events)[0] in s.events;
    AllLiveAt(c, s, m, xs, now);
    LivePrefix(s.queues[m].items, xs, s.queues[m].maxDelay, now);
  }

  /** Before the first of them goes, all of them live. */
  lemma {:induction false} AllLiveAt(c: Config, s: State, m: MacId, xs: seq<Item>, now: int)
    requires Draining(c, s, m, xs)
    requires now <= Last(s.tr.windows).start + SpentIn(s.tr.air, |s.tr.windows| - 1) + TxTime(c.bps, xs[0].packet.size)
    ensures forall i :: 0 <= i < |xs| ==> Alive(xs[i], s.queues[m].maxDelay, now)
  {
    hide TxTime;
    var t := Last(s.tr.windows).start + SpentIn(s.tr.air, |s.tr.windows| - 1) + TxTime(c.bps, xs[0].packet.size);
    AllLive(xs[1..], c.bps, s.queues[m].maxDelay, t, now);
    forall i | 0 <= i < |xs| ensures Alive(xs[i], s.queues[m].maxDelay, now) {
      if 0 < i { assert xs[i] == xs[1..][i - 1]; }
    }
  }

  /** The i-th packet of a drain that starts at `t`. */
  predicate AllSent(bps: pos, e: State, m: MacId, xs: seq<Item>, t: int, n: nat) {
    forall i :: 0 <= i < |xs| ==> SentAt(e, m, xs[i], t + SumTx(bps, xs[..i + 1]), n)
  }

  lemma {:induction false} AllSentStep(bps: pos, e: State, m: MacId, xs: seq<Item>, t: int, n: nat)
    requires xs != [] && SentAt(e, m, xs[0], t + TxTime(bps, xs[0].packet.size), n)
    requires AllSent(bps, e, m, xs[1..], t + TxTime(bps, xs[0].packet.size), n)
    ensures AllSent(bps, e, m, xs, t, n)
  {
    hide TxTime, SentAt;
    forall i | 0 <= i < |xs| ensures SentAt(e, m, xs[i], t + SumTx(bps, xs[..i + 1]), n) {
      var a := xs[..i + 1];
      assert a[0] == xs[0] && a[1..] == xs[1..][..i];
      if 0 < i {
        assert xs[1..][i - 1] == xs[i] && xs[1..][..i - 1 + 1] == a[1..];
      } else {
        assert a[1..] == [];
      }
    }
  }

  lemma {:induction false} DrainGoes(c: Config, s: State, ls: seq<Label>, m: MacId, xs: seq<Item>)
    requires Inv(c, s) && Sound(c, s) && s.active && Legal(c, s, ls) && Draining(c, s, m, xs)
    requires Last(s.tr.windows).start + SpentIn(s.tr.air, |s.tr.windows| - 1) + SumTx(c.bps, xs) < Exec(c, s, ls).now
    ensures AllSent(c.bps, Exec(c, s, ls), m, xs,
                    Last(s.tr.windows).start + SpentIn(s.tr.air, |s.tr.windows| - 1), |s.tr.windows| - 1)
    decreases |ls|
  {
    hide Inv, Sound, Do, Enabled, SentAt, NoEventBefore, AllSent, TxTime, Scheduled, Outlive, Fitting;
    var n, tx := |s.tr.windows| - 1, TxTime(c.bps, xs[0].packet.size);
    var t := Last(s.tr.windows).start + SpentIn(s.tr.air, n);
    assert tx + SumTx(c.bps, xs[1..]) == SumTx(c.bps, xs);
    if ls == [] {
      NowFirst(c, s);
      assert false by { ScheduledLater(s, m, xs[0], t + tx); }
    } else {
      var r := Do(c, s, ls[0]);
      StepKeeps(c, s, ls[0]);
      if ls[0].Fire? {
        DrainingFires(c, s, ls[0].k, m, xs);
        SentStays(c, r, ls[1..], m, xs[0], t + tx, n);
        if 1 < |xs| {
          DrainGoes(c, r, ls[1..], m, xs[1..]);
        } else {
          NoneSent(c.bps, Exec(c, s, ls), m, xs[1..], t + tx, n);
        }
        AllSentStep(c.bps, Exec(c, s, ls), m, xs, t, n);
      } else {
        DrainingStays(c, s, ls[0], m, xs);
        DrainGoes(c, r, ls[1..], m, xs);
      }
    }
  }

  lemma {:induction false} NoneSent(bps: pos, e: State, m: MacId, xs: seq<Item>, t: int, n: nat)
    requires xs == []
    ensures AllSent(bps, e, m, xs, t, n)
  {
  }

  // ---------------------------------------------------------------- from the opening

  /** A session that has just opened has spent nothing. */
  lemma {:induction false} FreshWindow(c: Config, s: State, n: nat)
    requires AirOk(c, s) && |s.tr.windows| <= n
    ensures SpentIn(s.tr.air, n) == 0 && SentIn(s.tr.air, n) == 0
  {
    forall j | 0 <= j < |s.tr.air| ensures s.tr.air[j].session != n {
      assert FrameOk(c, s, s.tr.air[j]);
    }
    SentNone(s.tr.air, n);
  }

  lemma {:induction false} RescheduleDrains(c: Config, s: State, slot: nat, n: nat, m: MacId, xs: seq<Item>)
    requires Draining(c, s, m, xs)
    ensures Draining(c, RescheduleF(c, s, slot, n), m, xs)
  {
    hide TxTime, Outlive, RescheduleF;
    RescheduleSends(c, s, slot, n);
    RescheduleRest(c, s, slot, n);
  }

  lemma {:induction false} OpeningDrains(c: Config, s: State, slot: nat, xs: seq<Item>)
    requires AirOk(c, s) && Accounts(s) && slot in c.slots && Known(s, c.slots[slot]) && Sends(s.events) == []
    requires xs != [] && Outlive(c.bps, xs, s.queues[c.slots[slot]].maxDelay, s.now)
    requires xs <= Live(s.queues[c.slots[slot]].items, s.queues[c.slots[slot]].maxDelay, s.now)
    requires SumTx(c.bps, xs) + 999 * (|xs| - 1) < 1000 * (c.slotUs * (1 + Same(c.slots, c.slots[slot], slot + 1)))
    ensures var r := ScheduleSessionF(c, s, slot);
            Draining(c, r, c.slots[slot], xs) && SpentIn(r.tr.air, |s.tr.windows|) == 0
            && |r.tr.windows| == |s.tr.windows| + 1 && r.active == s.active
            && Last(r.tr.windows) == Opened(c, slot, s.now)
  {
    hide TxTime, Same, Outlive, RescheduleF, StartTransmissionF, AirOk, Accounts, Live, Dead, Draining;
    var m, w, n := c.slots[slot], Opened(c, slot, s.now), |s.tr.windows|;
    var s1 := OpenF(c, s, slot, w.count);
    OpenReady(c, s, slot);
    FreshWindow(c, s, n);
    DrainContinues(c, s1, m, c.slotUs * w.count, xs);
    var r := StartTransmissionF(c, s1, m, c.slotUs * w.count);
    DrainQueue(c, s1, m, c.slotUs * w.count, m);
    RescheduleRest(c, r, slot, w.count);
    RescheduleDrains(c, r, slot, w.count, m, xs);
    RescheduleActive(c, r, slot, w.count);
  }

  lemma {:induction false} RescheduleActive(c: Config, s: State, slot: nat, n: nat)
    ensures RescheduleF(c, s, slot, n).active == s.active
  {
  }

  /** Everything that fits goes out in the session: when a list of packets heads the owner's live queue at the
      opening, takes less than the session with 999 ns to spare for each packet after the first, and each packet
      outlives its own transmission, then all of them leave in this session, packet i when the times of the
      packets up to and including it have passed since the opening. The invariant holds in every reachable
      state. */
  lemma {:induction false} SessionDrains(c: Config, s0: State, pre: seq<Label>, k: nat, ls: seq<Label>, xs: seq<Item>)
    requires Covered(c) && Initial(c, s0) && Legal(c, s0, pre)
    requires var s := Exec(c, s0, pre);
             Inv(c, s) && Enabled(s, Fire(k)) && !s.events[k].ev.SendDown? && Legal(c, Do(c, s, Fire(k)), ls)
    requires var s := Exec(c, s0, pre);
             var w := NextWindow(c, s);
             && xs != [] && w.mac in s.queues && SumTx(c.bps, xs) + 999 * (|xs| - 1) < w.len
             && w.start + SumTx(c.bps, xs) < Exec(c, Do(c, s, Fire(k)), ls).now
             && xs <= Live(s.queues[w.mac].items, s.queues[w.mac].maxDelay, w.start)
             && Outlive(c.bps, xs, s.queues[w.mac].maxDelay, w.start)
    ensures var s := Exec(c, s0, pre);
            var w, e := NextWindow(c, s), Exec(c, Do(c, s, Fire(k)), ls);
            forall i :: 0 <= i < |xs| ==> SentAt(e, w.mac, xs[i], w.start + SumTx(c.bps, xs[..i + 1]), |s.tr.windows|)
  {
    hide Covered, Initial, Legal, Exec, Inv, Do, Enabled, SentAt, TxTime, Live, NextWindow, Outlive, Draining;
    Reached(c, s0, pre);
    var s := Exec(c, s0, pre);
    FirstOfDrain(c, s, k, xs);
    StepKeeps(c, s, Fire(k));
    DrainGoes(c, Do(c, s, Fire(k)), ls, NextWindow(c, s).mac, xs);
  }

  lemma {:induction false} FirstOfDrain(c: Config, s: State, k: nat, xs: seq<Item>)
    requires Inv(c, s) && Sound(c, s) && Enabled(s, Fire(k)) && !s.events[k].ev.SendDown?
    requires var w := NextWindow(c, s);
             && xs != [] && w.mac in s.queues && SumTx(c.bps, xs) + 999 * (|xs| - 1) < w.len
             && xs <= Live(s.queues[w.mac].items, s.queues[w.mac].maxDelay, w.start)
             && Outlive(c.bps, xs, s.queues[w.mac].maxDelay, w.start)
    ensures var w, r, n := NextWindow(c, s), Do(c, s, Fire(k)), |s.tr.windows|;
            Draining(c, r, w.mac, xs) && r.active && |r.tr.windows| == n + 1 && Last(r.tr.windows) == w
            && SpentIn(r.tr.air, n) == 0
  {
    hide AirOk, Accounts, QueuesOk, WindowsOk, Sending, Do, Draining, TxTime, Same, ScheduleSessionF, Outlive, Live;
    NoSendAtSession(c, s, k);
    PopSession(c, s, k);
    SlotOfNext(c, s);
    EventsPop(s.events, k);
    var slot := SlotOf(s.events[k].ev);
    OwnerKnown(c, s, slot);
    NowOfSession(c, s, k, slot);
    OpeningDrains(c, Pop(s, k), slot, xs);
  }

  // ---------------------------------------------------------------- when a drain stops

  /** Nothing alive is left for the session's owner, or its first packet would not fit what remains, up to the
      999 ns that each frame sent may have cost. */
  predicate Stopped(c: Config, s: State) {
    s.tr.windows != [] && Last(s.tr.windows).mac in s.queues &&
    var w, n := Last(s.tr.windows), |s.tr.windows| - 1;
    var live := Live(s.queues[w.mac].items, s.queues[w.mac].maxDelay, s.now);
    live == [] || w.len <= SpentIn(s.tr.air, n) + TxTime(c.bps, live[0].packet.size) + 999 * SentIn(s.tr.air, n)
  }

  lemma {:induction false} DrainStops(c: Config, s: State, m: MacId, us: nat)
    requires Ready(s, m, us)
    ensures var r := StartTransmissionF(c, s, m, us); Sends(r.events) == [] ==> Stopped(c, r)
  {
    hide TxTime, Live, Dead, Expire, SentIn, SpentIn;
    var q := s.queues[m];
    LiveIsLive(q.items, q.maxDelay, s.now);
    var live := Live(q.items, q.maxDelay, s.now);
    if live != [] && TxTime(c.bps, live[0].packet.size) < 1000 * us {
      DrainPeeks(c, s, m, us);
      var r := StartTransmissionF(c, s, m, us);
      assert r.events == s.events + [r.events[|s.events|]];
      EventsAppend(s.events, r.events[|s.events|]);
    }
  }

  lemma {:induction false} RescheduleStops(c: Config, s: State, slot: nat, n: nat)
    requires Sends(s.events) == [] ==> Stopped(c, s)
    ensures var r := RescheduleF(c, s, slot, n); Sends(r.events) == [] ==> Stopped(c, r)
  {
    hide TxTime, Live;
    RescheduleSends(c, s, slot, n);
    RescheduleRest(c, s, slot, n);
  }

  /** The clock stands where the frames of the last session have taken it. */
  predicate AtSpent(s: State) {
    s.tr.windows != [] && s.now == Last(s.tr.windows).start + SpentIn(s.tr.air, |s.tr.windows| - 1)
  }

  lemma {:induction false} SessionStops(c: Config, s: State, slot: nat)
    requires AirOk(c, s) && Accounts(s) && slot in c.slots && Known(s, c.slots[slot]) && Sends(s.events) == []
    ensures var r := ScheduleSessionF(c, s, slot); AtSpent(r) && (Sends(r.events) == [] ==> Stopped(c, r))
  {
    hide TxTime, Same, RescheduleF, StartTransmissionF, AirOk, Accounts, Ready;
    var m, w := c.slots[slot], Opened(c, slot, s.now);
    var s1 := OpenF(c, s, slot, w.count);
    OpenReady(c, s, slot);
    FreshWindow(c, s, |s.tr.windows|);
    DrainStops(c, s1, m, c.slotUs * w.count);
    DrainQueue(c, s1, m, c.slotUs * w.count, m);
    var r := StartTransmissionF(c, s1, m, c.slotUs * w.count);
    RescheduleStops(c, r, slot, w.count);
    RescheduleRest(c, r, slot, w.count);
    RescheduleNow(c, r, slot, w.count);
  }

  lemma RescheduleNow(c: Config, s: State, slot: nat, n: nat)
    ensures RescheduleF(c, s, slot, n).now == s.now
  {
  }

  lemma {:induction false} SendStops(c: Config, s: State, m: MacId, rem: nat)
    requires Known(s, m) && s.tr.peeked.Some? && s.tr.windows != [] && Sends(s.events) == []
    requires SendOk(c, s, Pending(s.now, SendDown(m, rem))) && Last(s.tr.windows).start <= s.now
    requires !SendPacketDownF(c, s, m, rem).fault
    ensures var r := SendPacketDownF(c, s, m, rem); AtSpent(r) && (Sends(r.events) == [] ==> Stopped(c, r))
  {
    hide TxTime, HandOverF, StartTransmissionF, DequeueF, SendOk;
    HandOverMoves(s, m, m);
    var h := HandOverF(s, m);
    HandOverRoom(c, s, m, rem);
    DrainQueue(c, h, m, rem / 1000, m);
    DrainStops(c, h, m, rem / 1000);
  }

  /** Wherever a step starts or continues a drain, it goes on or has stopped. */
  lemma {:induction false} StepStops(c: Config, s: State, l: Label)
    requires Inv(c, s) && Sound(c, s) && Enabled(s, l) && l.Fire? && !Do(c, s, l).fault
    ensures AtSpent(Do(c, s, l)) && (Sends(Do(c, s, l).events) == [] ==> Stopped(c, Do(c, s, l)))
  {
    hide AirOk, Accounts, QueuesOk, WindowsOk, SendOk, ScheduleSessionF, SendPacketDownF, TxTime, Stopped, AtSpent;
    var s1 := Pop(s, l.k);
    if s.events[l.k].ev.SendDown? {
      PopSend(c, s, l.k);
      SendOkLater(c, s, l.k);
      EventsPop(s.events, l.k);
      SendStops(c, s1, s.events[l.k].ev.mac, s.events[l.k].ev.remaining);
    } else {
      NoSendAtSession(c, s, l.k);
      PopSession(c, s, l.k);
      SlotOfNext(c, s);
      EventsPop(s.events, l.k);
      OwnerKnown(c, s, SlotOf(s.events[l.k].ev));
      NowOfSession(c, s, l.k, SlotOf(s.events[l.k].ev));
      SessionStops(c, s1, SlotOf(s.events[l.k].ev));
    }
  }

  // ---------------------------------------------------------------- over a run

  /** What a step adds to the air and to the windows. */
  lemma {:induction false} StepAdds(c: Config, s: State, l: Label)
    requires Inv(c, s) && Sound(c, s) && Enabled(s, l)
    ensures var r := Do(c, s, l);
            && s.tr.windows <= r.tr.windows
            && (r.tr.air == s.tr.air || (|s.tr.air| < |r.tr.air| && r.tr.air == s.tr.air + [r.tr.air[|s.tr.air|]]
                                         && s.tr.windows != [] && r.tr.air[|s.tr.air|].session == |s.tr.windows| - 1))
            && |r.tr.windows| == |s.tr.windows| + (if OpensSession(s, l) then 1 else 0)
            && (!l.Fire? ==> r.events == s.events || Sends(r.events) == Sends(s.events))
            && ((Sends(s.events) == [] || OpensSession(s, l)) ==> r.tr.air == s.tr.air)
  {
    hide AirOk, Accounts, QueuesOk, WindowsOk, SendOk, HandOverF, StartTransmissionF, ScheduleSessionF, EnqueueF,
      TxTime;
    match l
    case Start(t) =>
      EventsAppend(s.events, Pending(t + 10, StartSessions));
    case Arrive(t, m, p, h) =>
    case Fire(k) =>
      var s1 := Pop(s, k);
      if s.events[k].ev.SendDown? {
        var o := s.events[k].ev.mac;
        PopSend(c, s, k);
        EventsPop(s.events, k);
        HandOverMoves(s1, o, o);
        if !HandOverF(s1, o).fault {
          DrainQueue(c, HandOverF(s1, o), o, s.events[k].ev.remaining / 1000, o);
        }
      } else {
        NoSendAtSession(c, s, k);
        SlotOfNext(c, s);
        var slot := SlotOf(s.events[k].ev);
        OwnerKnown(c, s, slot);
        NowOfSession(c, s, k, slot);
        SessionAir(c, s1, slot);
        OpensOne(c, s1, slot);
        SessionWindows(c, s1, slot);
      }
  }

  lemma SessionWindows(c: Config, s: State, slot: nat)
    requires slot in c.slots && Known(s, c.slots[slot])
    ensures s.tr.windows <= ScheduleSessionF(c, s, slot).tr.windows
  {
    hide StartTransmissionF, Same;
    var o, n := c.slots[slot], 1 + Same(c.slots, c.slots[slot], slot + 1);
    DrainQueue(c, OpenF(c, s, slot, n), o, c.slotUs * n, o);
  }

  /** Session n will send no more. */
  ghost predicate Over(s: State, n: nat) {
    n + 1 < |s.tr.windows| || (n + 1 == |s.tr.windows| && Sends(s.events) == [])
  }

  lemma {:induction false} OverStays(c: Config, s: State, l: Label, n: nat)
    requires Inv(c, s) && Sound(c, s) && Enabled(s, l) && Over(s, n)
    ensures var r := Do(c, s, l);
            Over(r, n) && SentIn(r.tr.air, n) == SentIn(s.tr.air, n) && SpentIn(r.tr.air, n) == SpentIn(s.tr.air, n)
            && r.tr.windows[n] == s.tr.windows[n]
  {
    hide Inv, Sound, Do;
    StepAdds(c, s, l);
    var r := Do(c, s, l);
    if r.tr.air != s.tr.air {
      SentAppend(s.tr.air, r.tr.air[|s.tr.air|]);
    }
    if n + 1 == |s.tr.windows| && l.Fire? {
      OnlySessions(c, s, l.k);
    }
  }

  lemma {:induction false} OnlySessions(c: Config, s: State, k: nat)
    requires Inv(c, s) && Enabled(s, Fire(k)) && Sends(s.events) == []
    ensures OpensSession(s, Fire(k))
  {
    hide AirOk, Accounts, QueuesOk, WindowsOk, Sending;
    EventsPop(s.events, k);
  }

  lemma {:induction false} OverRun(c: Config, s: State, ls: seq<Label>, n: nat)
    requires Inv(c, s) && Sound(c, s) && Legal(c, s, ls) && Over(s, n)
    ensures var e := Exec(c, s, ls);
            n < |e.tr.windows| && e.tr.windows[n] == s.tr.windows[n]
            && SentIn(e.tr.air, n) == SentIn(s.tr.air, n) && SpentIn(e.tr.air, n) == SpentIn(s.tr.air, n)
    decreases |ls|
  {
    hide Inv, Sound, Do, Enabled;
    if ls != [] {
      StepKeeps(c, s, ls[0]);
      OverStays(c, s, ls[0], n);
      OverRun(c, Do(c, s, ls[0]), ls[1..], n);
    }
  }

  /** The state in which session n stopped: at its opening or right after its last frame. */
  predicate StopsAt(c: Config, r: State, e: State, n: nat) {
    && |r.tr.windows| == n + 1 && n < |e.tr.windows| && Last(r.tr.windows) == e.tr.windows[n]
    && AtSpent(r) && Stopped(c, r)
    && SentIn(r.tr.air, n) == SentIn(e.tr.air, n) && SpentIn(r.tr.air, n) == SpentIn(e.tr.air, n)
  }

  /** Some step of the run leads to it. */
  ghost predicate StopsOn(c: Config, s: State, ls: seq<Label>, pre: seq<Label>, n: nat) {
    pre <= ls && Legal(c, s, ls) && Legal(c, s, pre) && StopsAt(c, Exec(c, s, pre), Exec(c, s, ls), n)
  }

  lemma {:induction false} StopsLater(c: Config, s: State, l: Label, ls: seq<Label>, pre: seq<Label>, n: nat)
    requires Enabled(s, l) && StopsOn(c, Do(c, s, l), ls, pre, n)
    ensures StopsOn(c, s, [l] + ls, [l] + pre, n)
  {
    hide Do, Enabled, StopsAt;
    Prepend(c, s, l, ls);
    Prepend(c, s, l, pre);
  }

  lemma {:induction false} StopsNow(c: Config, s: State, l: Label, ls: seq<Label>, n: nat)
    requires Inv(c, s) && Sound(c, s) && Enabled(s, l) && Legal(c, Do(c, s, l), ls) && l.Fire?
    requires |Do(c, s, l).tr.windows| == n + 1 && Sends(Do(c, s, l).events) == [] && !Do(c, s, l).fault
    ensures StopsOn(c, s, [l] + ls, [l], n)
  {
    hide Do, Enabled, Inv, Sound, Stopped, AtSpent;
    StepStops(c, s, l);
    StepKeeps(c, s, l);
    OverRun(c, Do(c, s, l), ls, n);
    assert Legal(c, Do(c, s, l), []) && Exec(c, Do(c, s, l), []) == Do(c, s, l);
    Prepend(c, s, l, ls);
    Prepend(c, s, l, []);
    assert [l] + [] == [l];
  }

  /** Session n is open with a send pending, or still to come; and it is closed in the end. */
  lemma {:induction false} Stops(c: Config, s: State, ls: seq<Label>, n: nat) returns (pre: seq<Label>)
    requires Inv(c, s) && Sound(c, s) && Legal(c, s, ls)
    requires |s.tr.windows| <= n || (|s.tr.windows| == n + 1 && Sends(s.events) != [])
    requires n + 1 < |Exec(c, s, ls).tr.windows|
    ensures StopsOn(c, s, ls, pre, n)
    decreases |ls|
  {
    hide Inv, Sound, Do, Enabled, StopsOn;
    var l, rest := ls[0], ls[1..];
    assert ls == [l] + rest;
    var r := Do(c, s, l);
    StepKeeps(c, s, l);
    StepAdds(c, s, l);
    SendingSession(c, s, l);
    assert !r.fault by { NoFaultInside(c, r, rest, n); }
    if |r.tr.windows| == n + 1 && Sends(r.events) == [] {
      StopsNow(c, s, l, rest, n);
      pre := [l];
    } else {
      var more := Stops(c, r, rest, n);
      StopsLater(c, s, l, rest, more, n);
      pre := [l] + more;
    }
  }

  /** A faulting state has no successors. */
  lemma {:induction false} NoFaultInside(c: Config, s: State, ls: seq<Label>, n: nat)
    requires Legal(c, s, ls) && |s.tr.windows| <= n + 1 < |Exec(c, s, ls).tr.windows|
    ensures !s.fault
  {
  }

  /** No session opens while a send is pending, and only firing changes what is pending. */
  lemma {:induction false} SendingSession(c: Config, s: State, l: Label)
    requires Inv(c, s) && Sound(c, s) && Enabled(s, l)
    ensures Sends(s.events) != [] ==> !OpensSession(s, l)
    ensures !l.Fire? ==> Sends(Do(c, s, l).events) == Sends(s.events)
  {
    hide AirOk, Accounts, QueuesOk, WindowsOk, Sending, EnqueueF;
    StepAdds(c, s, l);
    if OpensSession(s, l) {
      NoSendAtSession(c, s, l.k);
    }
  }

  /** Work conservation: every closed session of every run stopped at an instant, its opening or that of its
      last frame, at which its owner had nothing alive to send, or a packet that would not have fitted what was
      left, up to 999 ns for each frame sent. */
  lemma {:induction false} WorkConserving(c: Config, s0: State, ls: seq<Label>, n: nat) returns (pre: seq<Label>)
    requires Covered(c) && Initial(c, s0) && Legal(c, s0, ls) && n + 1 < |Exec(c, s0, ls).tr.windows|
    ensures pre <= ls && Legal(c, s0, pre)
    ensures var r, e := Exec(c, s0, pre), Exec(c, s0, ls);
            && |r.tr.windows| == n + 1 && Last(r.tr.windows) == e.tr.windows[n]
            && SentIn(r.tr.air, n) == SentIn(e.tr.air, n) && SpentIn(r.tr.air, n) == SpentIn(e.tr.air, n)
            && r.now == e.tr.windows[n].start + SpentIn(e.tr.air, n)
            && Stopped(c, r)
  {
    hide Covered, Legal, Exec, Stopped, Inv;
    Reached(c, s0, ls);
    InitialInv(c, s0);
    assert Sound(c, s0);
    pre := Stops(c, s0, ls, n);
  }
}
