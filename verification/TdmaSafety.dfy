/**
 What every run of the TDMA medium keeps, whatever is queued and whenever.
 `Inv` is the inductive invariant; the readable results are at the end of the file.
 */
module TdmaSafety {
  import opened Wrappers
  import opened MacQueue
  import opened TdmaModel

  // ---------------------------------------------------------------- vocabulary

  function Sends(es: seq<Pending>): seq<Pending> {
    if es == [] then []
    else if es[0].ev.SendDown? then [es[0]] + Sends(es[1..])
    else Sends(es[1..])
  }

  function SessionEvents(es: seq<Pending>): seq<Pending> {
    if es == [] then []
    else if es[0].ev.SendDown? then SessionEvents(es[1..])
    else [es[0]] + SessionEvents(es[1..])
  }

  function SentBy(air: seq<Frame>, m: MacId): seq<Item> {
    if air == [] then []
    else
      var l := |air| - 1;
      if air[l].mac == m then SentBy(air[..l], m) + [air[l].item] else SentBy(air[..l], m)
  }

  /** Frames sent in session `i`, and the sum of the times measured for them. */
  function SentIn(air: seq<Frame>, i: nat): nat {
    if air == [] then 0
    else SentIn(air[..|air| - 1], i) + (if air[|air| - 1].session == i then 1 else 0)
  }

  function SpentIn(air: seq<Frame>, i: nat): nat {
    if air == [] then 0
    else SpentIn(air[..|air| - 1], i) + (if air[|air| - 1].session == i then air[|air| - 1].peeked.tx else 0)
  }

  function Last(ws: seq<Window>): Window
    requires ws != []
  {
    ws[|ws| - 1]
  }

  /** A maximal run of equally owned slots, given its share of the frame. */
  predicate WindowOk(c: Config, w: Window) {
    && w.slot + w.count <= c.total && 0 < w.count
    && (forall k :: w.slot <= k < w.slot + w.count ==> k in c.slots && c.slots[k] == w.mac)
    && (0 < w.slot ==> w.slot - 1 in c.slots && c.slots[w.slot - 1] != w.mac)
    && (w.slot + w.count < c.total ==> w.slot + w.count in c.slots && c.slots[w.slot + w.count] != w.mac)
    && w.len == 1000 * (c.slotUs * w.count)
  }

  /** The session event that must be pending after window `w`. */
  function After(c: Config, w: Window): Pending {
    if w.slot + w.count == c.total
    then Pending(w.start + w.len + 1000 * (c.guardUs + c.interUs), StartSessions)
    else Pending(w.start + w.len + 1000 * c.guardUs, Session(w.slot + w.count))
  }

  predicate Follows(c: Config, w: Window, v: Window) {
    v.start == After(c, w).at && v.slot == if After(c, w).ev.StartSessions? then 0 else w.slot + w.count
  }

  predicate WindowsOk(c: Config, ws: seq<Window>, startedAt: int) {
    && (forall i :: 0 <= i < |ws| ==> WindowOk(c, ws[i]))
    && (forall i :: 0 < i < |ws| ==> Follows(c, ws[i - 1], ws[i]))
    && (ws != [] ==> ws[0].slot == 0 && ws[0].start == startedAt + 10)
  }

  function NextSession(c: Config, s: State): Pending {
    if s.tr.windows == [] then Pending(s.tr.startedAt + 10, StartSessions) else After(c, Last(s.tr.windows))
  }

  // ---------------------------------------------------------------- the invariant

  predicate FrameOk(c: Config, s: State, f: Frame) {
    && f.session < |s.tr.windows|
    && f.mac == s.tr.windows[f.session].mac
    && s.tr.windows[f.session].start + f.peeked.tx <= f.at < s.tr.windows[f.session].start + s.tr.windows[f.session].len
    && f.at <= s.now
    && f.peeked.tx == TxTime(c.bps, f.peeked.item.packet.size)
    && f.mac in s.queues
    && (Alive(f.peeked.item, s.queues[f.mac].maxDelay, f.at) ==> f.item == f.peeked.item)
  }

  /** Frame i left when exactly the times measured in its session so far, its own included, had passed. */
  predicate OnTime(s: State, i: nat)
    requires i < |s.tr.air|
  {
    var f := s.tr.air[i];
    f.session < |s.tr.windows| && f.at == s.tr.windows[f.session].start + SpentIn(s.tr.air[..i + 1], f.session)
  }

  predicate AirOk(c: Config, s: State) {
    && (forall i :: 0 <= i < |s.tr.air| ==> FrameOk(c, s, s.tr.air[i]))
    && (forall i :: 0 <= i < |s.tr.air| ==> OnTime(s, i))
    && (forall i, j :: 0 <= i < j < |s.tr.air| ==> s.tr.air[i].at <= s.tr.air[j].at)
  }

  predicate StallOk(s: State, t: Stall) {
    && t.session < |s.tr.windows|
    && SpentIn(s.tr.air, t.session) + t.head
         >= s.tr.windows[t.session].len - 999 * SentIn(s.tr.air, t.session)
  }

  predicate NoStallNow(s: State) {
    forall i :: 0 <= i < |s.tr.stalls| ==> s.tr.stalls[i].session != |s.tr.windows| - 1
  }

  predicate Accounts(s: State) {
    && (forall i :: 0 <= i < |s.tr.stalls| ==> StallOk(s, s.tr.stalls[i]))
    && (forall i :: 0 <= i < |s.tr.windows| && 0 < SentIn(s.tr.air, i)
          ==> SpentIn(s.tr.air, i) < s.tr.windows[i].len)
  }

  ghost predicate QueueOk(s: State, m: MacId)
    requires Known(s, m)
  {
    Capped(s.queues[m], s.tr.logs[m])
    && Agree(Run(s.queues[m], Items(s.tr.logs[m]), SentBy(s.tr.air, m)), s.tr.logs[m], s.now)
  }

  /** A queue with limit zero never accepts anything. */
  predicate Capped(f: Fifo, log: Ledger) {
    f.maxSize == 0 ==> log == []
  }

  ghost predicate QueuesOk(s: State) {
    s.queues.Keys == s.tr.logs.Keys && forall m :: m in s.queues ==> QueueOk(s, m)
  }

  /** `us` microseconds are left of the current window, up to what truncation lost. */
  predicate Room(s: State, us: nat)
    requires s.tr.windows != []
  {
    var w, i := Last(s.tr.windows), |s.tr.windows| - 1;
    && s.now == w.start + SpentIn(s.tr.air, i) && s.now + 1000 * us <= w.start + w.len
    && w.len - SpentIn(s.tr.air, i) - 999 * SentIn(s.tr.air, i) <= 1000 * us <= w.len - SpentIn(s.tr.air, i)
  }

  /** The one pending send fits the current window and its packet still heads the queue or has expired. */
  predicate SendOk(c: Config, s: State, p: Pending)
    requires s.tr.windows != [] && s.tr.peeked.Some? && p.ev.SendDown?
  {
    var w, i, x := Last(s.tr.windows), |s.tr.windows| - 1, s.tr.peeked.value;
    && p.ev.mac == w.mac && p.ev.mac in s.queues
    && x.tx == TxTime(c.bps, x.item.packet.size)
    && p.at == w.start + SpentIn(s.tr.air, i) + x.tx
    && 0 < p.ev.remaining && p.at + p.ev.remaining <= w.start + w.len
    && w.len - SpentIn(s.tr.air, i) - x.tx - 999 * SentIn(s.tr.air, i) <= p.ev.remaining
         <= w.len - SpentIn(s.tr.air, i) - x.tx
    && NoStallNow(s)
    && var q := s.queues[p.ev.mac];
       && q.maxSize != 0 && x.item.tstamp <= p.at - x.tx && Alive(x.item, q.maxDelay, p.at - x.tx)
       && ((q.items != [] && q.items[0] == x.item) || !Alive(x.item, q.maxDelay, s.now))
  }

  predicate Sending(c: Config, s: State) {
    || (Sends(s.events) == [] && s.tr.peeked == None)
    || (|Sends(s.events)| == 1 && s.tr.windows != [] && s.tr.peeked.Some? && Sends(s.events)[0].ev.SendDown?
        && SendOk(c, s, Sends(s.events)[0]))
  }

  ghost predicate Core(c: Config, s: State) {
    && WindowsOk(c, s.tr.windows, s.tr.startedAt)
    && (s.tr.windows != [] ==> s.active && Last(s.tr.windows).start <= s.now)
    && NoEventBefore(s, s.now)
    && Sending(c, s)
    && AirOk(c, s)
    && Accounts(s)
    && QueuesOk(s)
  }

  ghost predicate Inv(c: Config, s: State) {
    && Core(c, s)
    && SessionEvents(s.events) == if s.active then [NextSession(c, s)] else []
  }

  // ---------------------------------------------------------------- lists

  lemma {:induction false} SendsConcat(a: seq<Pending>, b: seq<Pending>)
    ensures Sends(a + b) == Sends(a) + Sends(b)
  {
    if a == [] {
      assert a + b == b;
    } else {
      assert (a + b)[1..] == a[1..] + b;
      SendsConcat(a[1..], b);
    }
  }

  lemma {:induction false} SessionsConcat(a: seq<Pending>, b: seq<Pending>)
    ensures SessionEvents(a + b) == SessionEvents(a) + SessionEvents(b)
  {
    if a == [] {
      assert a + b == b;
    } else {
      assert (a + b)[1..] == a[1..] + b;
      SessionsConcat(a[1..], b);
    }
  }

  lemma EventsAppend(es: seq<Pending>, p: Pending)
    ensures Sends(es + [p]) == if p.ev.SendDown? then Sends(es) + [p] else Sends(es)
    ensures SessionEvents(es + [p]) == if p.ev.SendDown? then SessionEvents(es) else SessionEvents(es) + [p]
  {
    SendsConcat(es, [p]);
    SessionsConcat(es, [p]);
    assert [p][1..] == [];
  }

  lemma EventsPop(es: seq<Pending>, k: nat)
    requires k < |es| && |Sends(es)| <= 1 && |SessionEvents(es)| <= 1
    ensures var r := es[..k] + es[k + 1..];
            if es[k].ev.SendDown?
            then Sends(es) == [es[k]] && Sends(r) == [] && SessionEvents(r) == SessionEvents(es)
            else SessionEvents(es) == [es[k]] && SessionEvents(r) == [] && Sends(r) == Sends(es)
  {
    var a, b, x := es[..k], es[k + 1..], [es[k]];
    assert es == (a + x) + b && x[1..] == [];
    SendsConcat(a + x, b);
    SendsConcat(a, x);
    SendsConcat(a, b);
    SessionsConcat(a + x, b);
    SessionsConcat(a, x);
    SessionsConcat(a, b);
  }

  lemma SendsAreSends(es: seq<Pending>)
    ensures forall i :: 0 <= i < |Sends(es)| ==> Sends(es)[i].ev.SendDown? && Sends(es)[i] in es
    ensures forall i :: 0 <= i < |SessionEvents(es)| ==> SessionEvents(es)[i] in es
  {
  }

  lemma SentAppend(air: seq<Frame>, f: Frame)
    ensures forall i :: SentIn(air + [f], i) == SentIn(air, i) + (if f.session == i then 1 else 0)
    ensures forall i :: SpentIn(air + [f], i) == SpentIn(air, i) + (if f.session == i then f.peeked.tx else 0)
    ensures forall m :: SentBy(air + [f], m) == if f.mac == m then SentBy(air, m) + [f.item] else SentBy(air, m)
  {
    assert (air + [f])[..|air|] == air;
  }

  lemma {:induction false} SentNone(air: seq<Frame>, i: nat)
    requires forall j :: 0 <= j < |air| ==> air[j].session != i
    ensures SentIn(air, i) == 0 && SpentIn(air, i) == 0
  {
    if air != [] {
      SentNone(air[..|air| - 1], i);
    }
  }

  // ---------------------------------------------------------------- each step keeps it

  /** The record of the air survives any change that only extends the past. */
  lemma AirCarries(c: Config, s: State, r: State)
    requires AirOk(c, s) && r.tr.air == s.tr.air && s.tr.windows <= r.tr.windows && s.now <= r.now
    requires forall m :: m in s.queues ==> m in r.queues && r.queues[m].maxDelay == s.queues[m].maxDelay
    ensures AirOk(c, r)
  {
    forall i | 0 <= i < |r.tr.air| ensures FrameOk(c, r, r.tr.air[i]) {
      assert FrameOk(c, s, s.tr.air[i]);
    }
    forall i | 0 <= i < |r.tr.air| ensures OnTime(r, i) {
      assert OnTime(s, i);
    }
  }

  lemma AccountsCarry(c: Config, s: State, r: State)
    requires Accounts(s) && AirOk(c, s)
    requires r.tr.air == s.tr.air && s.tr.windows <= r.tr.windows && r.tr.stalls == s.tr.stalls
    ensures Accounts(r)
  {
    forall i | 0 <= i < |r.tr.stalls| ensures StallOk(r, r.tr.stalls[i]) {
      assert StallOk(s, s.tr.stalls[i]);
    }
    forall i | |s.tr.windows| <= i < |r.tr.windows| ensures SentIn(r.tr.air, i) == 0 {
      forall j | 0 <= j < |s.tr.air| ensures s.tr.air[j].session != i {
        assert FrameOk(c, s, s.tr.air[j]);
      }
      SentNone(r.tr.air, i);
    }
  }

  lemma QueuesCarry(s: State, r: State)
    requires QueuesOk(s) && r.queues == s.queues && r.tr.logs == s.tr.logs && r.tr.air == s.tr.air
    requires s.now <= r.now
    ensures QueuesOk(r)
  {
    hide Agree;
    forall m | m in r.queues ensures QueueOk(r, m) {
      assert QueueOk(s, m);
      AgreeLater(Run(s.queues[m], Items(s.tr.logs[m]), SentBy(s.tr.air, m)), s.tr.logs[m], s.now, r.now);
    }
  }

  /** A step that touches neither queues, air, windows nor stalls. */
  lemma RecordCarries(c: Config, s: State, r: State)
    requires AirOk(c, s) && Accounts(s) && QueuesOk(s)
    requires r.queues == s.queues && r.tr.logs == s.tr.logs && s.now <= r.now
    requires r.tr.air == s.tr.air && r.tr.windows == s.tr.windows && r.tr.stalls == s.tr.stalls
    ensures AirOk(c, r) && Accounts(r) && QueuesOk(r)
  {
    hide AirOk, Accounts, QueuesOk;
    AirCarries(c, s, r);
    AccountsCarry(c, s, r);
    QueuesCarry(s, r);
  }

  // ---------------------------------------------------------------- each step keeps it

  /** Waiting until `t`, before anything pending is due. */
  lemma WaitKeeps(c: Config, s: State, t: int)
    requires Core(c, s) && s.now <= t && NoEventBefore(s, t)
    ensures Core(c, s.(now := t))
  {
    hide AirOk, Accounts, QueuesOk, WindowsOk;
    RecordCarries(c, s, s.(now := t));
  }

  /** Queue operations leave the air, the windows and the accounts alone. */
  lemma SetQueueKeeps(c: Config, s: State, m: MacId, q: Fifo, log: Ledger)
    requires AirOk(c, s) && Accounts(s) && QueuesOk(s) && Known(s, m)
    requires q.maxDelay == s.queues[m].maxDelay && Capped(q, log)
    requires Agree(Run(q, Items(log), SentBy(s.tr.air, m)), log, s.now)
    ensures var r := SetQueue(s, m, q, log); AirOk(c, r) && Accounts(r) && QueuesOk(r)
  {
    hide AirOk, Accounts, Agree;
    var r := SetQueue(s, m, q, log);
    AirCarries(c, s, r);
    AccountsCarry(c, s, r);
    forall k | k in r.queues ensures QueueOk(r, k) {
      if k != m { assert QueueOk(s, k); }
    }
  }

  lemma QueueAfterCleanup(s: State, m: MacId)
    requires QueuesOk(s) && Known(s, m)
    ensures var q := CleanupF(s.queues[m], s.now);
            Agree(Run(q, Items(s.tr.logs[m]), SentBy(s.tr.air, m)), Expire(s.tr.logs[m], q.maxDelay, s.now), s.now)
            && Items(Expire(s.tr.logs[m], q.maxDelay, s.now)) == Items(s.tr.logs[m])
            && q.maxSize == s.queues[m].maxSize && Capped(q, Expire(s.tr.logs[m], q.maxDelay, s.now))
  {
    assert QueueOk(s, m);
    CleanupAgrees(Run(s.queues[m], Items(s.tr.logs[m]), SentBy(s.tr.air, m)), s.tr.logs[m], s.now, s.now);
  }

  lemma CleanKeeps(c: Config, s: State, m: MacId)
    requires Core(c, s) && Known(s, m) && Sends(s.events) == []
    ensures Core(c, CleanF(s, m))
  {
    hide AirOk, Accounts, QueuesOk, WindowsOk, Agree;
    var q := CleanupF(s.queues[m], s.now);
    QueueAfterCleanup(s, m);
    SetQueueKeeps(c, s, m, q, Expire(s.tr.logs[m], q.maxDelay, s.now));
  }

  /** The current session may use `us` more microseconds and has nothing pending. */
  predicate Ready(s: State, m: MacId, us: nat) {
    && Known(s, m) && s.tr.windows != [] && m == Last(s.tr.windows).mac
    && Sends(s.events) == [] && NoStallNow(s) && Room(s, us)
  }

  /** The head of a queue that has just been cleaned. */
  predicate HeadOk(s: State, m: MacId)
    requires Known(s, m)
  {
    var q := s.queues[m];
    q.items != [] ==> q.maxSize != 0 && q.items[0].tstamp <= s.now && Alive(q.items[0], q.maxDelay, s.now)
  }

  lemma CleanHead(s: State, m: MacId)
    requires QueuesOk(s) && Known(s, m)
    ensures HeadOk(CleanF(s, m), m)
  {
    hide Expire;
    assert QueueOk(s, m);
    var q := CleanF(s, m).queues[m];
    if q.items != [] {
      LiveHead(s.queues[m].items, s.queues[m].maxDelay, s.now);
      WithOld(s.tr.logs[m], q.items[0], s.now);
    }
  }

  lemma {:induction false} LiveHead(items: seq<Item>, delay: int, now: int)
    requires Live(items, delay, now) != []
    ensures Live(items, delay, now)[0] in items && Alive(Live(items, delay, now)[0], delay, now)
  {
    if !Alive(items[0], delay, now) {
      LiveHead(items[1..], delay, now);
    }
  }

  lemma {:induction false} WithOld(log: Ledger, i: Item, now: int)
    requires i in With(log, Waiting) && forall j :: 0 <= j < |log| ==> log[j].item.tstamp <= now
    ensures log != [] && i.tstamp <= now
  {
    if log[0].fate != Waiting || log[0].item != i {
      assert forall j :: 0 <= j < |log[1..]| ==> log[1..][j] == log[j + 1];
      WithOld(log[1..], i, now);
    }
  }

  lemma PeekFits(c: Config, s: State, m: MacId, us: nat, x: Measured)
    requires Ready(s, m, us) && HeadOk(s, m)
    requires s.queues[m].items != [] && s.queues[m].items[0] == x.item
    requires x.tx == TxTime(c.bps, x.item.packet.size) && x.tx < 1000 * us
    ensures SendOk(c, PeekedF(s, m, us, x), Pending(s.now + x.tx, SendDown(m, 1000 * us - x.tx)))
  {
    hide TxTime;
  }

  lemma PeekSends(c: Config, s: State, m: MacId, us: nat, x: Measured)
    requires Ready(s, m, us) && HeadOk(s, m) && NoEventBefore(s, s.now)
    requires s.queues[m].items != [] && s.queues[m].items[0] == x.item
    requires x.tx == TxTime(c.bps, x.item.packet.size) && x.tx < 1000 * us
    ensures var r := PeekedF(s, m, us, x);
            Sending(c, r) && NoEventBefore(r, r.now) && SessionEvents(r.events) == SessionEvents(s.events)
  {
    hide TxTime, SendOk;
    var p := Pending(s.now + x.tx, SendDown(m, 1000 * us - x.tx));
    EventsAppend(s.events, p);
    PeekFits(c, s, m, us, x);
    var r := PeekedF(s, m, us, x);
    assert Sends(r.events) == [p];
    assert Sends(r.events)[0] == p;
  }

  lemma PeekKeeps(c: Config, s: State, m: MacId, us: nat, x: Measured)
    requires Core(c, s) && Ready(s, m, us) && HeadOk(s, m)
    requires s.queues[m].items != [] && s.queues[m].items[0] == x.item
    requires x.tx == TxTime(c.bps, x.item.packet.size) && x.tx < 1000 * us
    ensures var r := PeekedF(s, m, us, x);
            Core(c, r) && SessionEvents(r.events) == SessionEvents(s.events)
  {
    hide TxTime, AirOk, Accounts, QueuesOk, WindowsOk, Sending;
    PeekSends(c, s, m, us, x);
    RecordCarries(c, s, PeekedF(s, m, us, x));
  }

  lemma StallKeeps(c: Config, s: State, m: MacId, us: nat, tx: nat)
    requires Core(c, s) && Ready(s, m, us) && 1000 * us <= tx
    ensures Core(c, StalledF(s, tx))
  {
    hide AirOk, QueuesOk, WindowsOk;
    var r := StalledF(s, tx);
    forall i | 0 <= i < |r.tr.stalls| ensures StallOk(r, r.tr.stalls[i]) {
      if i < |s.tr.stalls| { assert StallOk(s, s.tr.stalls[i]); }
    }
    AirCarries(c, s, r);
    QueuesCarry(s, r);
  }

  lemma DrainKeeps(c: Config, s: State, m: MacId, us: nat)
    requires Core(c, s) && Ready(s, m, us) && HeadOk(s, m)
    ensures var r := DrainF(c, s, m, us);
            Core(c, r) && SessionEvents(r.events) == SessionEvents(s.events)
  {
    hide TxTime, Core, Room, NoStallNow;
    if s.queues[m].items != [] {
      var x := s.queues[m].items[0];
      var tx := TxTime(c.bps, x.packet.size);
      if tx < 1000 * us {
        PeekKeeps(c, s, m, us, Measured(x, tx));
      } else {
        StallKeeps(c, s, m, us, tx);
      }
    }
  }

  /** Draining the queue inside the window keeps everything, and schedules at most one send. */
  lemma StartTransmissionKeeps(c: Config, s: State, m: MacId, us: nat)
    requires Core(c, s) && Ready(s, m, us)
    ensures var r := StartTransmissionF(c, s, m, us);
            Core(c, r) && SessionEvents(r.events) == SessionEvents(s.events)
  {
    hide DrainF, HeadOk, Accounts, WindowsOk, QueuesOk, AirOk, Sending;
    CleanKeeps(c, s, m);
    CleanHead(s, m);
    assert Ready(CleanF(s, m), m, us);
    DrainKeeps(c, CleanF(s, m), m, us);
  }

  /** Starting: the first caller creates the session chain, later callers change nothing. */
  lemma StartKeeps(c: Config, s: State)
    requires Inv(c, s)
    ensures Inv(c, StartF(s))
  {
    hide AirOk, Accounts, QueuesOk;
    if !s.active {
      EventsAppend(s.events, Pending(s.now + 10, StartSessions));
      RecordCarries(c, s, StartF(s));
    }
  }

  /** While it is alive, the head of a queue stays the head when a packet arrives. */
  lemma HeadStays(f: Fifo, x: Item, now: int, p: Packet, h: WifiMacHeader)
    requires f.items != [] && f.items[0] == x
    ensures var q := EnqueueF(f, now, p, h).0;
            (q.items != [] && q.items[0] == x) || !Alive(x, f.maxDelay, now)
  {
  }

  lemma ArriveShape(s: State, m: MacId, p: Packet, h: WifiMacHeader)
    requires Known(s, m)
    ensures var r, f := QueueF(s, m, p, h), CleanupF(s.queues[m], s.now);
            var e, i := Expire(s.tr.logs[m], s.queues[m].maxDelay, s.now), Item(p, h, s.now);
            if EnqueueF(s.queues[m], s.now, p, h).1
            then r.queues[m] == f.(items := f.items + [i], size := f.size + 1)
                 && r.tr.logs[m] == e + [Entry(i, Waiting)]
            else r.queues[m] == f && r.tr.logs[m] == e
    ensures CleanupF(s.queues[m], s.now).maxDelay == s.queues[m].maxDelay
  {
    hide Live, Dead;
  }

  lemma ArriveAgrees(s: State, m: MacId, p: Packet, h: WifiMacHeader)
    requires QueuesOk(s) && Known(s, m)
    ensures var r := QueueF(s, m, p, h);
            Agree(Run(r.queues[m], Items(r.tr.logs[m]), SentBy(s.tr.air, m)), r.tr.logs[m], s.now)
            && Capped(r.queues[m], r.tr.logs[m])
  {
    ArriveCapped(s, m, p, h);
    hide Agree, CleanupF, EnqueueF, QueueF, Expire;
    var f, log := s.queues[m], s.tr.logs[m];
    var r := Run(f, Items(log), SentBy(s.tr.air, m));
    assert QueueOk(s, m);
    ArriveShape(s, m, p, h);
    CleanupAgrees(r, log, s.now, s.now);
    var e, i := Expire(log, f.maxDelay, s.now), Item(p, h, s.now);
    SameItems(log, f.maxDelay, s.now);
    if EnqueueF(f, s.now, p, h).1 {
      EnqueueAgrees(r.(f := CleanupF(f, s.now)), e, s.now, i);
      assert Items(e + [Entry(i, Waiting)]) == Items(e) + [i];
    }
  }

  lemma ArriveCapped(s: State, m: MacId, p: Packet, h: WifiMacHeader)
    requires QueuesOk(s) && Known(s, m)
    ensures Capped(QueueF(s, m, p, h).queues[m], QueueF(s, m, p, h).tr.logs[m])
  {
    assert QueueOk(s, m);
  }

  lemma SameItems(log: Ledger, delay: int, now: int)
    ensures Items(Expire(log, delay, now)) == Items(log)
  {
  }

  /** A packet from above: the peeked head stays at the head unless it has expired. */
  lemma ArriveKeeps(c: Config, s: State, m: MacId, p: Packet, h: WifiMacHeader)
    requires Inv(c, s) && Known(s, m)
    ensures Inv(c, QueueF(s, m, p, h))
  {
    hide AirOk, Accounts, QueuesOk, WindowsOk, Agree, Live, Dead, Alive;
    var r := QueueF(s, m, p, h);
    ArriveAgrees(s, m, p, h);
    SetQueueKeeps(c, s, m, r.queues[m], r.tr.logs[m]);
    if Sends(s.events) != [] {
      var x := s.tr.peeked.value.item;
      if s.queues[m].items != [] && s.queues[m].items[0] == x {
        HeadStays(s.queues[m], x, s.now, p, h);
      }
      assert SendOk(c, r, Sends(s.events)[0]);
    }
  }

  // ---------------------------------------------------------------- firing a send event

  /** The dequeued packet is the measured one if that one is still alive. */
  lemma DequeueTakesPeeked(f: Fifo, x: Item, now: int)
    requires (f.items != [] && f.items[0] == x) || !Alive(x, f.maxDelay, now)
    ensures Alive(x, f.maxDelay, now) ==> DequeueF(f, now).1 == Some(x)
  {
  }

  lemma HandOverQueue(s: State, m: MacId)
    requires QueuesOk(s) && Known(s, m) && s.tr.peeked.Some? && s.tr.windows != []
    ensures var r := HandOverF(s, m);
            Agree(Run(r.queues[m], Items(r.tr.logs[m]), SentBy(r.tr.air, m)), r.tr.logs[m], s.now)
            && Capped(r.queues[m], r.tr.logs[m])
  {
    hide Live, Dead, QueuesOk;
    HandOverCapped(s, m);
    var f, log := s.queues[m], s.tr.logs[m];
    QueueAfterCleanup(s, m);
    var e, q := Expire(log, f.maxDelay, s.now), CleanupF(f, s.now);
    if q.items != [] {
      TakeAgrees(Run(q, Items(log), SentBy(s.tr.air, m)), e, s.now);
      OldestExists(e);
      assert Items(Settle(e, Oldest(e), Dequeued)) == Items(log);
      var x := Frame(|s.tr.windows| - 1, m, q.items[0], s.tr.peeked.value, s.now);
      SentAppend(s.tr.air, x);
      assert HandOverF(s, m).tr.air == s.tr.air + [x];
    }
  }

  lemma HandOverCapped(s: State, m: MacId)
    requires QueuesOk(s) && Known(s, m) && s.tr.peeked.Some? && s.tr.windows != []
    ensures Capped(HandOverF(s, m).queues[m], HandOverF(s, m).tr.logs[m])
  {
    hide Agree, Live, Dead;
    assert QueueOk(s, m);
  }

  lemma HandOverOthers(s: State, m: MacId, k: MacId)
    requires Known(s, m) && Known(s, k) && k != m && s.tr.peeked.Some? && s.tr.windows != []
    ensures var r := HandOverF(s, m);
            r.queues[k] == s.queues[k] && r.tr.logs[k] == s.tr.logs[k]
            && SentBy(r.tr.air, k) == SentBy(s.tr.air, k)
  {
    hide CleanupF;
    var i := DequeueF(s.queues[m], s.now).1;
    if i.Some? {
      SentAppend(s.tr.air, Frame(|s.tr.windows| - 1, m, i.value, s.tr.peeked.value, s.now));
    }
  }

  lemma HandOverMacs(s: State, m: MacId)
    requires Known(s, m) && s.tr.peeked.Some? && s.tr.windows != []
    ensures var r := HandOverF(s, m);
            r.queues.Keys == s.queues.Keys && r.tr.logs.Keys == s.tr.logs.Keys && r.now == s.now
  {
    hide CleanupF, Oldest, Expire;
  }

  lemma HandOverAgrees(s: State, m: MacId)
    requires QueuesOk(s) && Known(s, m) && s.tr.peeked.Some? && s.tr.windows != []
    ensures QueuesOk(HandOverF(s, m))
  {
    hide Agree, HandOverF;
    HandOverQueue(s, m);
    HandOverMacs(s, m);
    var r := HandOverF(s, m);
    forall k | k in r.queues ensures QueueOk(r, k) {
      if k != m {
        assert QueueOk(s, k);
        HandOverOthers(s, m, k);
      }
    }
  }

  lemma HandOverAir(c: Config, s: State, f: Frame, r: State)
    requires AirOk(c, s) && Accounts(s) && s.tr.windows != []
    requires FrameOk(c, s, f) && f.session == |s.tr.windows| - 1 && f.at == s.now && NoStallNow(s)
    requires f.at == Last(s.tr.windows).start + SpentIn(s.tr.air, f.session) + f.peeked.tx
    requires SpentIn(s.tr.air, f.session) + f.peeked.tx < Last(s.tr.windows).len
    requires r == s.(tr := s.tr.(air := s.tr.air + [f], peeked := None))
    ensures AirOk(c, r) && Accounts(r)
  {
    SentAppend(s.tr.air, f);
    forall i | 0 <= i < |r.tr.air| ensures FrameOk(c, r, r.tr.air[i]) {
      if i < |s.tr.air| { assert FrameOk(c, s, s.tr.air[i]); } else { assert FrameOk(c, s, f); }
    }
    forall i | 0 <= i < |r.tr.air| ensures OnTime(r, i) {
      if i < |s.tr.air| {
        assert OnTime(s, i) && r.tr.air[..i + 1] == s.tr.air[..i + 1];
      } else {
        assert r.tr.air[..i + 1] == r.tr.air;
      }
    }
    forall i, j | 0 <= i < j < |r.tr.air| ensures r.tr.air[i].at <= r.tr.air[j].at {
      if j == |s.tr.air| { assert FrameOk(c, s, s.tr.air[i]); }
    }
    forall i | 0 <= i < |r.tr.stalls| ensures StallOk(r, r.tr.stalls[i]) {
      assert StallOk(s, s.tr.stalls[i]);
    }
  }

  /** After event k is taken off the list everything but the pending send still holds. */
  ghost predicate Popped(c: Config, s: State) {
    && WindowsOk(c, s.tr.windows, s.tr.startedAt)
    && (s.tr.windows != [] ==> s.active && Last(s.tr.windows).start <= s.now)
    && NoEventBefore(s, s.now) && Sends(s.events) == []
    && AirOk(c, s) && Accounts(s) && QueuesOk(s)
  }

  lemma PopSend(c: Config, s: State, k: nat)
    requires Inv(c, s) && Enabled(s, Fire(k)) && s.events[k].ev.SendDown?
    ensures Popped(c, Pop(s, k)) && SessionEvents(Pop(s, k).events) == SessionEvents(s.events)
    ensures s.tr.windows != [] && s.tr.peeked.Some? && SendOk(c, s, s.events[k])
    ensures Known(s, s.events[k].ev.mac)
  {
    hide AirOk, Accounts, QueueOk, WindowsOk;
    EventsPop(s.events, k);
    RecordCarries(c, s, Pop(s, k));
  }

  /** A pending send whose time has come, in a popped state. */
  ghost predicate Due(c: Config, s: State, m: MacId, rem: nat) {
    && Popped(c, s) && Known(s, m) && s.tr.peeked.Some? && s.tr.windows != []
    && SendOk(c, s, Pending(s.now, SendDown(m, rem)))
  }

  lemma HandOverFrame(c: Config, s: State, m: MacId, rem: nat, i: Item)
    requires Due(c, s, m, rem) && DequeueF(s.queues[m], s.now).1 == Some(i)
    ensures FrameOk(c, s, Frame(|s.tr.windows| - 1, m, i, s.tr.peeked.value, s.now))
  {
    hide AirOk, Accounts, QueuesOk, WindowsOk, TxTime;
    DequeueTakesPeeked(s.queues[m], s.tr.peeked.value.item, s.now);
  }

  lemma HandOverRecord(c: Config, s: State, m: MacId, rem: nat)
    requires Due(c, s, m, rem)
    ensures var r := HandOverF(s, m); AirOk(c, r) && Accounts(r)
  {
    hide AirOk, Accounts, QueuesOk, WindowsOk, TxTime, FrameOk;
    var r, i := HandOverF(s, m), DequeueF(s.queues[m], s.now).1;
    if i.Some? {
      var f := Frame(|s.tr.windows| - 1, m, i.value, s.tr.peeked.value, s.now);
      var a := s.(tr := s.tr.(air := s.tr.air + [f], peeked := None));
      HandOverFrame(c, s, m, rem, i.value);
      HandOverAir(c, s, f, a);
      AirCarries(c, a, r);
      AccountsCarry(c, a, r);
    } else {
      AirCarries(c, s, r);
      AccountsCarry(c, s, r);
    }
  }

  lemma HandOverRoom(c: Config, s: State, m: MacId, rem: nat)
    requires Known(s, m) && s.tr.peeked.Some? && s.tr.windows != [] && Sends(s.events) == []
    requires SendOk(c, s, Pending(s.now, SendDown(m, rem))) && Last(s.tr.windows).start <= s.now
    requires DequeueF(s.queues[m], s.now).1.Some?
    ensures Ready(HandOverF(s, m), m, rem / 1000)
  {
    var f := Frame(|s.tr.windows| - 1, m, DequeueF(s.queues[m], s.now).1.value, s.tr.peeked.value, s.now);
    SentAppend(s.tr.air, f);
    assert HandOverF(s, m).tr.air == s.tr.air + [f];
  }

  lemma HandOverKeeps(c: Config, s: State, m: MacId, rem: nat)
    requires Due(c, s, m, rem)
    ensures Core(c, HandOverF(s, m))
  {
    hide AirOk, Accounts, QueuesOk, WindowsOk, SendOk;
    HandOverAgrees(s, m);
    HandOverRecord(c, s, m, rem);
    assert Sending(c, HandOverF(s, m));
  }

  lemma SendPacketDownKeeps(c: Config, s: State, m: MacId, rem: nat)
    requires Due(c, s, m, rem) && !s.fault
    ensures var r := SendPacketDownF(c, s, m, rem);
            Core(c, r) && SessionEvents(r.events) == SessionEvents(s.events)
  {
    HandOverKeeps(c, s, m, rem);
    if DequeueF(s.queues[m], s.now).1.Some? {
      HandOverRoom(c, s, m, rem);
      StartTransmissionKeeps(c, HandOverF(s, m), m, rem / 1000);
    }
  }

  /** The session chain does not depend on what a MAC does. */
  predicate SameChain(s: State, r: State) {
    r.tr.windows == s.tr.windows && r.tr.startedAt == s.tr.startedAt && r.active == s.active
  }

  lemma SendSameChain(c: Config, s: State, m: MacId, rem: nat)
    requires Known(s, m) && s.tr.peeked.Some? && s.tr.windows != []
    ensures SameChain(s, SendPacketDownF(c, s, m, rem))
  {
  }

  lemma ChainCarries(c: Config, s: State, r: State)
    requires Core(c, r) && SameChain(s, r)
    requires SessionEvents(r.events) == if s.active then [NextSession(c, s)] else []
    ensures Inv(c, r)
  {
  }

  lemma SendOkLater(c: Config, s: State, k: nat)
    requires k < |s.events| && s.now <= s.events[k].at && s.events[k].ev.SendDown?
    requires s.tr.windows != [] && s.tr.peeked.Some? && SendOk(c, s, s.events[k])
    ensures SendOk(c, Pop(s, k), Pending(Pop(s, k).now, s.events[k].ev))
  {
  }

  /** Firing a send: the frame leaves inside its window, and the rest of the budget is still in it. */
  lemma SendKeeps(c: Config, s: State, k: nat)
    requires Inv(c, s) && Enabled(s, Fire(k)) && s.events[k].ev.SendDown?
    ensures Inv(c, Do(c, s, Fire(k)))
  {
    hide AirOk, Accounts, QueuesOk, WindowsOk, SendPacketDownF, Sending, TxTime;
    var m, rem := s.events[k].ev.mac, s.events[k].ev.remaining;
    PopSend(c, s, k);
    SendOkLater(c, s, k);
    SendDue(c, s, Pop(s, k), m, rem);
  }

  lemma SendDue(c: Config, s: State, s0: State, m: MacId, rem: nat)
    requires Due(c, s0, m, rem) && !s0.fault && SameChain(s, s0)
    requires SessionEvents(s0.events) == if s.active then [NextSession(c, s)] else []
    ensures Inv(c, SendPacketDownF(c, s0, m, rem))
  {
    SendPacketDownKeeps(c, s0, m, rem);
    SendSameChain(c, s0, m, rem);
    ChainCarries(c, s, SendPacketDownF(c, s0, m, rem));
  }

  // ---------------------------------------------------------------- firing a session event

  /** Every slot is owned by a MAC that exists. */
  predicate Sound(c: Config, s: State) {
    Covered(c) && forall k :: k in c.slots ==> c.slots[k] in s.queues
  }

  /** When a session event is the earliest, no send is pending: the window is over. */
  lemma NoSendAtSession(c: Config, s: State, k: nat)
    requires Inv(c, s) && Enabled(s, Fire(k)) && !s.events[k].ev.SendDown?
    ensures s.active && s.events[k] == NextSession(c, s) && Sends(s.events) == []
  {
    hide AirOk, Accounts, QueuesOk;
    EventsPop(s.events, k);
    SendsAreSends(s.events);
  }

  lemma PopSession(c: Config, s: State, k: nat)
    requires Inv(c, s) && Enabled(s, Fire(k)) && !s.events[k].ev.SendDown?
    ensures Popped(c, Pop(s, k)) && SessionEvents(Pop(s, k).events) == []
    ensures Pop(s, k).tr.peeked == None && s.active
  {
    hide AirOk, Accounts, QueuesOk, WindowsOk;
    NoSendAtSession(c, s, k);
    EventsPop(s.events, k);
    RecordCarries(c, s, Pop(s, k));
  }

  function Opened(c: Config, slot: nat, now: int): Window
    requires slot in c.slots
  {
    var n := 1 + Same(c.slots, c.slots[slot], slot + 1);
    Window(c.slots[slot], slot, n, now, 1000 * (c.slotUs * n))
  }

  /** The merged run starting where the previous one ended is maximal and stays in the frame. */
  lemma OpenedOk(c: Config, slot: nat, now: int)
    requires Covered(c) && slot < c.total
    requires 0 < slot ==> c.slots[slot - 1] != c.slots[slot]
    ensures WindowOk(c, Opened(c, slot, now))
  {
    var w := Opened(c, slot, now);
    assert forall j :: slot <= j < slot + w.count ==> j in c.slots && c.slots[j] == w.mac;
  }

  lemma SlotOfNext(c: Config, s: State)
    requires Covered(c) && WindowsOk(c, s.tr.windows, s.tr.startedAt)
    ensures var e := NextSession(c, s).ev;
            var slot := if e.StartSessions? then 0 else e.slot;
            !e.SendDown? && slot < c.total && (0 < slot ==> c.slots[slot - 1] != c.slots[slot])
  {
    if s.tr.windows != [] {
      var w := Last(s.tr.windows);
      assert WindowOk(c, w);
      assert c.slots[w.slot + w.count - 1] == w.mac;
    }
  }

  /** Opening the next session in a popped state leaves the new window entirely unspent. */
  lemma OpenKeeps(c: Config, s: State, slot: nat)
    requires Popped(c, s) && s.active && s.tr.peeked == None && slot in c.slots
    requires WindowOk(c, Opened(c, slot, s.now))
    requires NextSession(c, s) == Pending(s.now, NextSession(c, s).ev)
    requires slot == if NextSession(c, s).ev.Session? then NextSession(c, s).ev.slot else 0
    ensures var r := OpenF(c, s, slot, Opened(c, slot, s.now).count); Core(c, r)
  {
    hide AirOk, Accounts, QueuesOk, Same;
    var w := Opened(c, slot, s.now);
    var r := OpenF(c, s, slot, w.count);
    AirCarries(c, s, r);
    AccountsCarry(c, s, r);
    QueuesCarry(s, r);
    assert WindowsOk(c, r.tr.windows, r.tr.startedAt) by {
      if s.tr.windows != [] {
        assert Follows(c, Last(s.tr.windows), w);
      }
    }
  }

  lemma OpenReady(c: Config, s: State, slot: nat)
    requires AirOk(c, s) && Accounts(s) && slot in c.slots && Known(s, c.slots[slot]) && Sends(s.events) == []
    ensures var w := Opened(c, slot, s.now);
            Ready(OpenF(c, s, slot, w.count), w.mac, c.slotUs * w.count)
  {
    var w := Opened(c, slot, s.now);
    var r := OpenF(c, s, slot, w.count);
    var i := |s.tr.windows|;
    forall j | 0 <= j < |s.tr.air| ensures s.tr.air[j].session != i {
      assert FrameOk(c, s, s.tr.air[j]);
    }
    SentNone(s.tr.air, i);
    forall j | 0 <= j < |r.tr.stalls| ensures r.tr.stalls[j].session != |r.tr.windows| - 1 {
      assert StallOk(s, s.tr.stalls[j]);
    }
  }

  /** Appending a session event leaves the pending send as it was. */
  lemma SendingCarries(c: Config, s: State, p: Pending)
    requires Sending(c, s) && !p.ev.SendDown?
    ensures Sending(c, s.(events := s.events + [p]))
  {
    hide SendOk;
    EventsAppend(s.events, p);
    if Sends(s.events) != [] {
      SendOkCarries(c, s, s.events + [p], Sends(s.events)[0]);
    }
  }

  lemma SendOkCarries(c: Config, s: State, es: seq<Pending>, p: Pending)
    requires s.tr.windows != [] && s.tr.peeked.Some? && p.ev.SendDown? && SendOk(c, s, p)
    ensures SendOk(c, s.(events := es), p)
  {
    hide TxTime, SentIn, SpentIn;
  }

  lemma AfterIsRescheduled(c: Config, s: State, w: Window)
    requires w.start == s.now && w.len == 1000 * (c.slotUs * w.count)
    ensures RescheduleF(c, s, w.slot, w.count) == s.(events := s.events + [After(c, w)]) && s.now <= After(c, w).at
  {
    assert 0 <= c.slotUs * w.count;
  }

  /** The next session event goes on the list. */
  lemma RescheduleKeeps(c: Config, s: State, w: Window)
    requires Core(c, s) && s.active && s.tr.windows != [] && Last(s.tr.windows) == w && w.start == s.now
    requires w.len == 1000 * (c.slotUs * w.count) && SessionEvents(s.events) == []
    ensures var r := RescheduleF(c, s, w.slot, w.count); Inv(c, r) && r.fault == s.fault
  {
    hide AirOk, Accounts, QueuesOk, WindowsOk, Sending, After, RescheduleF;
    AfterIsRescheduled(c, s, w);
    var r := s.(events := s.events + [After(c, w)]);
    assert !After(c, w).ev.SendDown? by { AfterIsSession(c, w); }
    EventsAppend(s.events, After(c, w));
    RecordCarries(c, s, r);
    SendingCarries(c, s, After(c, w));
  }

  lemma AfterIsSession(c: Config, w: Window)
    ensures !After(c, w).ev.SendDown?
  {
  }

  lemma DrainSameChain(c: Config, s: State, m: MacId, us: nat)
    requires Known(s, m) && s.tr.windows != []
    ensures var r := StartTransmissionF(c, s, m, us); SameChain(s, r) && r.now == s.now && r.fault == s.fault
  {
  }

  lemma ScheduleSessionKeeps(c: Config, s: State, slot: nat)
    requires Covered(c) && Popped(c, s) && s.active && s.tr.peeked == None && SessionEvents(s.events) == []
    requires slot < c.total && (0 < slot ==> c.slots[slot - 1] != c.slots[slot]) && Known(s, c.slots[slot])
    requires NextSession(c, s) == Pending(s.now, NextSession(c, s).ev)
    requires slot == if NextSession(c, s).ev.Session? then NextSession(c, s).ev.slot else 0
    ensures Inv(c, ScheduleSessionF(c, s, slot)) && ScheduleSessionF(c, s, slot).fault == s.fault
  {
    hide AirOk, Accounts, QueuesOk, WindowsOk, Same, Sending, StartTransmissionF, RescheduleF, Ready;
    var w := Opened(c, slot, s.now);
    var s1 := OpenF(c, s, slot, w.count);
    OpenedOk(c, slot, s.now);
    OpenKeeps(c, s, slot);
    OpenReady(c, s, slot);
    var s2 := StartTransmissionF(c, s1, w.mac, c.slotUs * w.count);
    StartTransmissionKeeps(c, s1, w.mac, c.slotUs * w.count);
    DrainSameChain(c, s1, w.mac, c.slotUs * w.count);
    RescheduleKeeps(c, s2, w);
  }

  /** Firing the session event opens exactly the next session, and never misses a slot. */
  lemma SessionKeeps(c: Config, s: State, k: nat)
    requires Sound(c, s) && Inv(c, s) && Enabled(s, Fire(k)) && !s.events[k].ev.SendDown?
    ensures Inv(c, Do(c, s, Fire(k))) && !Do(c, s, Fire(k)).fault
  {
    hide AirOk, Accounts, WindowsOk;
    NoSendAtSession(c, s, k);
    PopSession(c, s, k);
    SlotOfNext(c, s);
    var e := s.events[k].ev;
    ScheduleSessionKeeps(c, Pop(s, k), if e.StartSessions? then 0 else e.slot);
  }

  // ---------------------------------------------------------------- runs

  /** No call forgets a MAC. */
  lemma DrainKeys(c: Config, s: State, m: MacId, us: nat)
    requires Known(s, m) && s.tr.windows != []
    ensures StartTransmissionF(c, s, m, us).queues.Keys == s.queues.Keys
  {
    hide TxTime, CleanupF;
  }

  lemma SendKeys(c: Config, s: State, m: MacId, rem: nat)
    requires Known(s, m) && s.tr.peeked.Some? && s.tr.windows != []
    ensures SendPacketDownF(c, s, m, rem).queues.Keys == s.queues.Keys
  {
    hide StartTransmissionF, DequeueF;
    var r := HandOverF(s, m);
    if !r.fault { DrainKeys(c, r, m, rem / 1000); }
  }

  lemma SessionKeys(c: Config, s: State, slot: nat)
    ensures ScheduleSessionF(c, s, slot).queues.Keys == s.queues.Keys
  {
    hide StartTransmissionF, Same;
    if slot in c.slots && Known(s, c.slots[slot]) {
      var n := 1 + Same(c.slots, c.slots[slot], slot + 1);
      DrainKeys(c, OpenF(c, s, slot, n), c.slots[slot], c.slotUs * n);
    }
  }

  lemma SoundCarries(c: Config, s: State, l: Label)
    requires Sound(c, s) && Enabled(s, l)
    ensures Sound(c, Do(c, s, l))
  {
    hide Covered, ScheduleSessionF, SendPacketDownF, EnqueueF;
    if l.Fire? {
      match s.events[l.k].ev
      case StartSessions => SessionKeys(c, Pop(s, l.k), 0);
      case Session(slot) => SessionKeys(c, Pop(s, l.k), slot);
      case SendDown(m, r) =>
        if Known(s, m) && s.tr.peeked.Some? && s.tr.windows != [] { SendKeys(c, Pop(s, l.k), m, r); }
    }
  }

  lemma StepKeeps(c: Config, s: State, l: Label)
    requires Sound(c, s) && Inv(c, s) && Enabled(s, l)
    ensures Inv(c, Do(c, s, l)) && Sound(c, Do(c, s, l))
  {
    hide AirOk, Accounts, QueuesOk, WindowsOk, Sound, Sending;
    SoundCarries(c, s, l);
    match l
    case Start(t) =>
      WaitKeeps(c, s, t);
      StartKeeps(c, s.(now := t));
    case Arrive(t, m, p, h) =>
      WaitKeeps(c, s, t);
      ArriveKeeps(c, s.(now := t), m, p, h);
    case Fire(k) =>
      if s.events[k].ev.SendDown? {
        SendKeeps(c, s, k);
      } else {
        SessionKeeps(c, s, k);
      }
  }

  lemma {:induction false} RunKeeps(c: Config, s: State, ls: seq<Label>)
    requires Sound(c, s) && Inv(c, s) && Legal(c, s, ls)
    ensures Inv(c, Exec(c, s, ls)) && Sound(c, Exec(c, s, ls))
    decreases |ls|
  {
    hide Inv, Sound;
    if ls != [] {
      StepKeeps(c, s, ls[0]);
      RunKeeps(c, Do(c, s, ls[0]), ls[1..]);
    }
  }

  lemma InitialInv(c: Config, s: State)
    requires Initial(c, s)
    ensures Inv(c, s)
  {
    forall m | m in s.queues ensures QueueOk(s, m) {
    }
  }
}
