/**
 The readable results about every run of the TDMA medium: mutual exclusion, the slot budget,
 the order of sent packets, and exactly when a send event finds nothing to send.
 */
module TdmaResults {
  import opened Wrappers
  import opened MacQueue
  import opened TdmaModel
  import opened TdmaSafety

  lemma WindowStep(c: Config, w: Window, v: Window)
    requires WindowOk(c, w) && Follows(c, w, v)
    ensures w.start + w.len + 1000 * c.guardUs <= v.start && 0 <= w.len
  {
  }

  lemma {:induction false} WindowsApart(c: Config, ws: seq<Window>, startedAt: int, i: nat, j: nat)
    requires WindowsOk(c, ws, startedAt) && i < j < |ws|
    ensures ws[i].start + ws[i].len + 1000 * c.guardUs <= ws[j].start
    decreases j
  {
    hide WindowOk, Follows;
    assert Follows(c, ws[j - 1], ws[j]) && WindowOk(c, ws[j - 1]);
    WindowStep(c, ws[j - 1], ws[j]);
    if i < j - 1 {
      WindowsApart(c, ws, startedAt, i, j - 1);
    }
  }

  lemma Reached(c: Config, s0: State, ls: seq<Label>)
    requires Covered(c) && Initial(c, s0) && Legal(c, s0, ls)
    ensures Inv(c, Exec(c, s0, ls)) && Sound(c, Exec(c, s0, ls))
  {
    InitialInv(c, s0);
    RunKeeps(c, s0, ls);
  }

  /** Mutual exclusion. In every reachable state every frame went out inside the window of a session
      of its own sender, at least its measured time after the window opened; sessions are at least one
      guard time apart, at most one send is pending in the whole network, and however many MACs called
      Start there is one session chain. */
  lemma MediumExclusive(c: Config, s0: State, ls: seq<Label>)
    requires Covered(c) && Initial(c, s0) && Legal(c, s0, ls)
    ensures var s := Exec(c, s0, ls);
            && (forall i :: 0 <= i < |s.tr.air| ==> Inside(s, s.tr.air[i]))
            && (forall i, j :: 0 <= i < j < |s.tr.windows| ==>
                  s.tr.windows[i].start + s.tr.windows[i].len + 1000 * c.guardUs <= s.tr.windows[j].start)
            && |Sends(s.events)| <= 1
            && |SessionEvents(s.events)| == (if s.active then 1 else 0)
  {
    hide Accounts, QueuesOk, Inside;
    Reached(c, s0, ls);
    var s := Exec(c, s0, ls);
    forall i | 0 <= i < |s.tr.air| ensures Inside(s, s.tr.air[i]) {
      assert FrameOk(c, s, s.tr.air[i]);
      FrameInside(c, s, s.tr.air[i]);
    }
    forall i, j | 0 <= i < j < |s.tr.windows|
      ensures s.tr.windows[i].start + s.tr.windows[i].len + 1000 * c.guardUs <= s.tr.windows[j].start
    {
      WindowsApart(c, s.tr.windows, s.tr.startedAt, i, j);
    }
  }

  /** The frame left in a window of its sender: strictly inside if it takes any time at all. */
  predicate Inside(s: State, f: Frame) {
    f.session < |s.tr.windows| &&
    var w := s.tr.windows[f.session];
    w.mac == f.mac && w.start + f.peeked.tx <= f.at < w.start + w.len && (0 < f.peeked.tx ==> w.start < f.at)
  }

  lemma FrameInside(c: Config, s: State, f: Frame)
    requires FrameOk(c, s, f)
    ensures Inside(s, f)
  {
  }

  /** The exact instant: a frame leaves when the times measured for the frames of its session, up to and
      including its own, have passed since the session opened. */
  lemma ExactInstants(c: Config, s0: State, ls: seq<Label>, i: nat)
    requires Covered(c) && Initial(c, s0) && Legal(c, s0, ls) && i < |Exec(c, s0, ls).tr.air|
    ensures var tr := Exec(c, s0, ls).tr;
            var n := tr.air[i].session;
            n < |tr.windows| && tr.air[i].at == tr.windows[n].start + SpentIn(tr.air[..i + 1], n)
            && tr.air[i].peeked.tx == TxTime(c.bps, tr.air[i].peeked.item.packet.size)
  {
    hide Accounts, QueuesOk, WindowsOk, Covered, Initial, Legal, Exec;
    Reached(c, s0, ls);
    assert FrameOk(c, Exec(c, s0, ls), Exec(c, s0, ls).tr.air[i]) && OnTime(Exec(c, s0, ls), i);
  }

  /** Two frames of different MACs on the air are more than a guard time apart. */
  lemma FramesOfTwoMacs(c: Config, s0: State, ls: seq<Label>, i: nat, j: nat)
    requires Covered(c) && Initial(c, s0) && Legal(c, s0, ls)
    requires var air := Exec(c, s0, ls).tr.air; i < j < |air| && air[i].mac != air[j].mac
    ensures var air := Exec(c, s0, ls).tr.air;
            air[i].session < air[j].session && air[i].at + 1000 * c.guardUs < air[j].at
  {
    hide Accounts, QueuesOk;
    Reached(c, s0, ls);
    var s := Exec(c, s0, ls);
    var f, g := s.tr.air[i], s.tr.air[j];
    assert FrameOk(c, s, f) && FrameOk(c, s, g);
    if f.session < g.session {
      WindowsApart(c, s.tr.windows, s.tr.startedAt, f.session, g.session);
    } else if g.session < f.session {
      WindowsApart(c, s.tr.windows, s.tr.startedAt, g.session, f.session);
    }
  }

  /** Slot budget. The times measured for the k frames of a session sum to less than the session, and
      when the drain stops on a waiting packet, that sum plus the packet's time misses the session
      length by at most 999 ns for each of the k truncations to microseconds. */
  lemma SlotBudget(c: Config, s0: State, ls: seq<Label>)
    requires Covered(c) && Initial(c, s0) && Legal(c, s0, ls)
    ensures var tr := Exec(c, s0, ls).tr;
            && (forall i :: 0 <= i < |tr.windows| && 0 < SentIn(tr.air, i)
                  ==> SpentIn(tr.air, i) < tr.windows[i].len)
            && (forall i :: 0 <= i < |tr.stalls| ==>
                  var t := tr.stalls[i];
                  t.session < |tr.windows|
                  && SpentIn(tr.air, t.session) + t.head >= tr.windows[t.session].len - 999 * SentIn(tr.air, t.session))
  {
    hide AirOk, QueuesOk, WindowsOk;
    Reached(c, s0, ls);
    var s := Exec(c, s0, ls);
    forall i | 0 <= i < |s.tr.stalls| ensures StallOk(s, s.tr.stalls[i]) {
    }
  }

  /** Order. What a MAC sent is what left its queue, oldest first; every accepted item has one fate;
      and a frame is the packet that was measured for it unless that packet expired on the way. */
  lemma SentInOrder(c: Config, s0: State, ls: seq<Label>, m: MacId)
    requires Covered(c) && Initial(c, s0) && Legal(c, s0, ls)
    requires m in Exec(c, s0, ls).queues
    ensures var s := Exec(c, s0, ls);
            m in s.tr.logs
            && SentBy(s.tr.air, m) == With(s.tr.logs[m], Dequeued)
            && s.queues[m].items == With(s.tr.logs[m], Waiting)
            && s.queues[m].drops == Packets(With(s.tr.logs[m], Expired))
            && Stamped(Items(s.tr.logs[m]))
            && (forall i :: 0 <= i < |s.tr.air| && s.tr.air[i].mac == m
                  && s.tr.air[i].at < s.tr.air[i].peeked.item.tstamp + s.queues[m].maxDelay
                  ==> s.tr.air[i].item == s.tr.air[i].peeked.item)
  {
    hide Accounts, WindowsOk;
    Reached(c, s0, ls);
    var s := Exec(c, s0, ls);
    assert QueueOk(s, m);
    forall i | 0 <= i < |s.tr.air| ensures FrameOk(c, s, s.tr.air[i]) {
    }
  }

  // ---------------------------------------------------------------- when the run faults

  /** A dequeue answers null exactly when the youngest item, hence every item, has expired. */
  lemma {:induction false} NullDequeue(f: Fifo, now: int)
    requires Stamped(f.items)
    ensures DequeueF(f, now).1 == None
       <==> (f.items == [] || !Alive(f.items[|f.items| - 1], f.maxDelay, now))
  {
    CleanupCutsPrefix(f.items, f.maxDelay, now);
  }

  lemma StampedQueue(c: Config, s: State, m: MacId)
    requires Inv(c, s) && m in s.queues
    ensures Stamped(s.queues[m].items) && Known(s, m)
  {
    hide AirOk, Accounts, WindowsOk;
    assert QueueOk(s, m);
    WithStamped(s.tr.logs[m], Waiting);
  }

  /** With every slot owned no session event ever misses its slot; the run faults exactly when a send
      event fires at a time by which everything in its queue has expired. */
  lemma FaultsExactlyOnNullDequeue(c: Config, s0: State, ls: seq<Label>, l: Label)
    requires Covered(c) && Initial(c, s0) && Legal(c, s0, ls) && Enabled(Exec(c, s0, ls), l)
    ensures var s := Exec(c, s0, ls);
            Do(c, s, l).fault <==>
              l.Fire? && s.events[l.k].ev.SendDown? && s.events[l.k].ev.mac in s.queues
              && var q := s.queues[s.events[l.k].ev.mac];
                 (q.items == [] || !Alive(q.items[|q.items| - 1], q.maxDelay, s.events[l.k].at))
  {
    hide AirOk, Accounts, QueuesOk, WindowsOk, Initial, Covered, Exec, Legal, TxTime, Same, EnqueueF;
    Reached(c, s0, ls);
    var s := Exec(c, s0, ls);
    if l.Fire? {
      if s.events[l.k].ev.SendDown? {
        var m := s.events[l.k].ev.mac;
        PopSend(c, s, l.k);
        StampedQueue(c, s, m);
        NullDequeue(s.queues[m], s.events[l.k].at);
      } else {
        SessionKeeps(c, s, l.k);
      }
    }
  }

  /** So a head that outlives its own transmission never faults, whatever arrives meanwhile. */
  lemma OutlivingHeadIsSent(c: Config, s0: State, ls: seq<Label>, k: nat)
    requires Covered(c) && Initial(c, s0) && Legal(c, s0, ls)
    requires var s := Exec(c, s0, ls);
             Enabled(s, Fire(k)) && s.events[k].ev.SendDown? && s.tr.peeked.Some? && s.events[k].ev.mac in s.queues
             && Alive(s.tr.peeked.value.item, s.queues[s.events[k].ev.mac].maxDelay, s.events[k].at)
    ensures var s := Exec(c, s0, ls);
            var r := Do(c, s, Fire(k));
            !r.fault && |r.tr.air| == |s.tr.air| + 1 && r.tr.air[|s.tr.air|].item == s.tr.peeked.value.item
  {
    hide AirOk, Accounts, QueuesOk, WindowsOk, Initial, Covered, Exec, Legal, TxTime, Same;
    Reached(c, s0, ls);
    var s := Exec(c, s0, ls);
    PopSend(c, s, k);
    DequeueTakesPeeked(s.queues[s.events[k].ev.mac], s.tr.peeked.value.item, s.events[k].at);
  }

  lemma Prepend(c: Config, s: State, l: Label, ls: seq<Label>)
    requires Enabled(s, l) && Legal(c, Do(c, s, l), ls)
    ensures Legal(c, s, [l] + ls) && Exec(c, s, [l] + ls) == Exec(c, Do(c, s, l), ls)
  {
    assert ([l] + ls)[1..] == ls;
  }
}
