/**
 When the guard is too short: a run in which a frame of one session is received after a frame of the next.
 The guard is derived from the general range or set by hand, and neither looks at the ground station's range
 (tdma-controller.cc:193-206, simple-wireless-channel.cc:81-83).
 */
module TdmaOverlap {
  import opened Wrappers
  import opened MacQueue
  import opened TdmaModel
  import opened TdmaSafety
  import opened TdmaResults
  import opened TdmaFrames
  import opened TdmaFaults
  import opened Channel

  // ---------------------------------------------------------------- one packet, from arrival to the air

  /** A pending send whose packet is alive puts it on the air and leaves the queue empty. */
  lemma SendGoes(c: Config, s: State, m: MacId, x: Item, at: int, rem: nat, q: Pending)
    requires !s.fault && s.events == [Pending(at, SendDown(m, rem)), q] && s.now <= at <= q.at
    requires s.tr.peeked.Some? && s.tr.windows != [] && Known(s, m)
    requires s.queues[m].items == [x] && s.queues[m].size == 1 && Alive(x, s.queues[m].maxDelay, at)
    ensures Enabled(s, Fire(0))
    ensures var r := Do(c, s, Fire(0));
            && !r.fault && r.active == s.active && r.now == at && r.events == [q] && r.tr.windows == s.tr.windows
            && r.tr.air == s.tr.air + [Frame(|s.tr.windows| - 1, m, x, s.tr.peeked.value, at)]
            && r.queues.Keys == s.queues.Keys && r.tr.logs.Keys == s.tr.logs.Keys
            && r.queues[m] == s.queues[m].(items := [], size := 0)
            && (forall k :: k in s.queues && k != m ==> r.queues[k] == s.queues[k])
  {
    hide Expire, TxTime, Oldest, Settle;
    LiveAll([x], s.queues[m].maxDelay, at);
    assert [x][1..] == [];
    assert Pop(s, 0).events == [q];
    var t := HandOverF(Pop(s, 0), m);
    assert t.queues[m] == s.queues[m].(items := [], size := 0);
    assert CleanupF(t.queues[m], at) == t.queues[m];
  }

  lemma {:induction false} Join(c: Config, s: State, ls: seq<Label>, more: seq<Label>)
    requires Legal(c, s, ls) && Legal(c, Exec(c, s, ls), more)
    ensures Legal(c, s, ls + more) && Exec(c, s, ls + more) == Exec(c, Exec(c, s, ls), more)
    decreases |ls|
  {
    hide Do, Enabled;
    if ls == [] {
      assert ls + more == more;
    } else {
      Join(c, Do(c, s, ls[0]), ls[1..], more);
      assert (ls + more)[1..] == ls[1..] + more;
    }
  }

  lemma ThreeSteps(c: Config, s: State, k: Label, l: Label, m: Label)
    requires Enabled(s, k) && Enabled(Do(c, s, k), l) && Enabled(Do(c, Do(c, s, k), l), m)
    ensures Legal(c, s, [k, l, m]) && Exec(c, s, [k, l, m]) == Do(c, Do(c, Do(c, s, k), l), m)
  {
    hide Do, Enabled;
    var t := Do(c, Do(c, s, k), l);
    assert Legal(c, Do(c, t, m), []);
    Prepend(c, t, m, []);
    Prepend(c, Do(c, s, k), l, [m]);
    Prepend(c, s, k, [l, m]);
    assert [m] + [] == [m] && [l] + [m] == [l, m] && [k] + [l, m] == [k, l, m];
  }

  /** The packet arrives just before its owner's session opens and is sent at once. */
  function AtOpening(m: MacId, p: Pending, pk: Packet): seq<Label> {
    [Arrive(p.at, m, pk, HDR), Fire(0), Fire(0)]
  }

  /** What remains of a session of `m` in which the one packet `pk` went out. */
  predicate Sent(c: Config, s: State, r: State, m: MacId, p: Pending, slot: nat, n: nat, pk: Packet) {
    && Calm(c, r, m, [], NextOf(c, p.at, slot, n))
    && r.tr.windows == s.tr.windows + [Window(m, slot, n, p.at, 1000 * (c.slotUs * n))]
    && |r.tr.air| == |s.tr.air| + 1 && s.tr.air <= r.tr.air
    && (var f := r.tr.air[|s.tr.air|];
        f.session == |s.tr.windows| && f.mac == m && f.item.packet == pk && f.at == p.at + TxTime(c.bps, pk.size))
    && r.queues.Keys == s.queues.Keys && (forall k :: k in s.queues && k != m ==> r.queues[k] == s.queues[k])
  }

  lemma OneFrame(c: Config, s: State, m: MacId, p: Pending, slot: nat, n: nat, pk: Packet)
    requires Calm(c, s, m, [], p) && OpensAt(p, slot) && slot in c.slots && c.slots[slot] == m
    requires n == 1 + Same(c.slots, m, slot + 1)
    requires TxTime(c.bps, pk.size) < 1000 * (c.slotUs * n) && TxTime(c.bps, pk.size) < s.queues[m].maxDelay
    ensures Legal(c, s, AtOpening(m, p, pk)) && Sent(c, s, Exec(c, s, AtOpening(m, p, pk)), m, p, slot, n, pk)
  {
    hide Do, Enabled, TxTime, Same;
    var tx, x, q := TxTime(c.bps, pk.size), Item(pk, HDR, p.at), NextOf(c, p.at, slot, n);
    CalmArrive(c, s, m, p, p.at, pk, HDR);
    ArriveOthers(c, s, m, p.at, pk, HDR);
    var s1 := Do(c, s, Arrive(p.at, m, pk, HDR));
    TargetMeasures(c, s1, m, x, p, slot, n);
    var s2 := Do(c, s1, Fire(0));
    SendGoes(c, s2, m, x, p.at + tx, 1000 * (c.slotUs * n) - tx, q);
    ThreeSteps(c, s, Arrive(p.at, m, pk, HDR), Fire(0), Fire(0));
  }

  lemma ArriveOthers(c: Config, s: State, m: MacId, t: int, pk: Packet, h: WifiMacHeader)
    requires Enabled(s, Arrive(t, m, pk, h))
    ensures var r := Do(c, s, Arrive(t, m, pk, h));
            r.tr.windows == s.tr.windows && r.tr.air == s.tr.air && r.queues.Keys == s.queues.Keys
            && (forall k :: k in s.queues && k != m ==> r.queues[k] == s.queues[k])
  {
    hide Live, Dead, Expire;
  }

  // ---------------------------------------------------------------- the first two sessions

  /** The owner of `r` can take a packet and keep it for the time it needs, and the session is long enough. */
  predicate Serves(c: Config, s: State, r: SlotRun, pk: Packet) {
    && r.mac in s.queues && 0 < s.queues[r.mac].maxSize
    && TxTime(c.bps, pk.size) < s.queues[r.mac].maxDelay && TxTime(c.bps, pk.size) < 1000 * (c.slotUs * r.count)
  }

  lemma FirstRuns(c: Config)
    requires Covered(c) && 1 < |Runs(c, 0)|
    ensures var r := RunAt(c, 0);
            0 < c.total && r.count < c.total && Runs(c, 0)[0] == r && Runs(c, 0)[1] == RunAt(c, r.count)
            && r.mac != RunAt(c, r.count).mac
  {
    hide RunAt;
    FramePartition(c);
    var r := RunAt(c, 0);
    assert Runs(c, 0) == [r] + Runs(c, r.count);
  }

  lemma FirstFrame(c: Config, s0: State, a: Packet) returns (s1: State, ls: seq<Label>)
    requires Covered(c) && Initial(c, s0) && 1 < |Runs(c, 0)| && Serves(c, s0, Runs(c, 0)[0], a)
    ensures Enabled(s0, Start(s0.now)) && s1 == Do(c, s0, Start(s0.now)) && Legal(c, s1, ls)
    ensures 0 < c.total && s1.tr.air == [] && s1.tr.windows == [] && s1.queues == s0.queues
    ensures var r := Runs(c, 0)[0];
            Sent(c, s1, Exec(c, s1, ls), r.mac, Pending(s0.now + 10, StartSessions), 0, r.count, a)
  {
    hide Covered, Do, Enabled, TxTime, Same, Runs, Legal, Exec;
    FirstRuns(c);
    var r := RunAt(c, 0);
    var p := Pending(s0.now + 10, StartSessions);
    CalmStart(c, s0, r.mac, s0.now);
    s1 := Do(c, s0, Start(s0.now));
    assert s1.tr.air == [] && s1.tr.windows == [] by { StartTrace(c, s0); }
    assert 0 in c.slots by { CoveredHas(c, 0); }
    OneFrame(c, s1, r.mac, p, 0, r.count, a);
    ls := AtOpening(r.mac, p, a);
  }

  lemma SecondFrame(c: Config, s1: State, s2: State, p: Pending, a: Packet, b: Packet) returns (ls: seq<Label>)
    requires Covered(c) && 1 < |Runs(c, 0)| && Serves(c, s1, Runs(c, 0)[1], b)
    requires s1.queues[Runs(c, 0)[1].mac].items == [] && s1.queues[Runs(c, 0)[1].mac].size == 0
    requires Sent(c, s1, s2, Runs(c, 0)[0].mac, p, 0, Runs(c, 0)[0].count, a)
    ensures Legal(c, s2, ls) && Runs(c, 0)[0].count < c.total
    ensures var r, t := Runs(c, 0)[0], Runs(c, 0)[1];
            Sent(c, s2, Exec(c, s2, ls), t.mac, NextOf(c, p.at, 0, r.count), r.count, t.count, b)
  {
    hide Covered, TxTime, Same, Runs, Legal, Exec;
    FirstRuns(c);
    var r := RunAt(c, 0);
    var t := RunAt(c, r.count);
    var q := NextOf(c, p.at, 0, r.count);
    assert r.count in c.slots by { CoveredHas(c, r.count); }
    assert Calm(c, s2, t.mac, [], q);
    OneFrame(c, s2, t.mac, q, r.count, t.count, b);
    ls := AtOpening(t.mac, q, b);
  }

  /** Some run sends `a` in the first session and `b` in the second, each after its own transmission time. */
  lemma TwoFrames(c: Config, s0: State, a: Packet, b: Packet) returns (ls: seq<Label>)
    requires Covered(c) && Initial(c, s0) && 1 < |Runs(c, 0)|
    requires Serves(c, s0, Runs(c, 0)[0], a) && Serves(c, s0, Runs(c, 0)[1], b)
    ensures Legal(c, s0, ls)
    ensures var air, start := Exec(c, s0, ls).tr.air, s0.now + 10;
            && |air| == 2 && air[0].session == 0 && air[1].session == 1
            && air[0].mac == Runs(c, 0)[0].mac && air[0].item.packet == a
            && air[1].mac == Runs(c, 0)[1].mac && air[1].item.packet == b
            && air[0].at == start + TxTime(c.bps, a.size)
            && air[1].at == start + Period(c, Runs(c, 0)[0].count) + TxTime(c.bps, b.size)
  {
    hide Covered, Do, Enabled, TxTime, Same, Runs, Legal, Exec, Calm;
    var s1, first := FirstFrame(c, s0, a);
    var s2 := Exec(c, s1, first);
    EmptyQueue(c, s0, Runs(c, 0)[1].mac);
    var second := SecondFrame(c, s1, s2, Pending(s0.now + 10, StartSessions), a, b);
    Join(c, s1, first, second);
    Prepend(c, s0, Start(s0.now), first + second);
    ls := [Start(s0.now)] + (first + second);
  }

  lemma StartTrace(c: Config, s0: State)
    requires Initial(c, s0) && Enabled(s0, Start(s0.now))
    ensures var r := Do(c, s0, Start(s0.now)); r.tr.air == [] && r.tr.windows == []
  {
  }

  lemma EmptyQueue(c: Config, s0: State, m: MacId)
    requires Initial(c, s0) && m in s0.queues
    ensures s0.queues[m].items == [] && s0.queues[m].size == 0
  {
  }

  // ---------------------------------------------------------------- the simulation's settings

  /** Three nodes with a slot each, and the slot, frame and data rate settings of aero-test-final.cc:725-728. */
  function Settings(guardUs: nat): Config {
    Config(1100, guardUs, 10, 11_000_000, 3, map[0 := 0, 1 := 1, 2 := 2])
  }

  const EMPTY := Fifo([], 0, 400, 10_000_000_000, 0, [])

  const QUIET := State(0, false, [], map[0 := EMPTY, 1 := EMPTY, 2 := EMPTY], false,
                       Trace(0, [], [], [], None, map[0 := [], 1 := [], 2 := []]))

  const LONG := Packet(0, 1400)
  const SHORT := Packet(1, 64)

  /** The ground station is node 0, 150 km from node 2; node 1 is 20 km from node 2. */
  function Distance(): (nat, nat) -> real {
    (m: nat, n: nat) => if m == n then 0.0 else if m == 0 || n == 0 then 150000.0 else 20000.0
  }

  lemma SettingsRuns(guardUs: nat)
    ensures Covered(Settings(guardUs)) && Initial(Settings(guardUs), QUIET)
    ensures 2 < |Runs(Settings(guardUs), 0)|
    ensures Runs(Settings(guardUs), 0)[0] == SlotRun(0, 0, 1) && Runs(Settings(guardUs), 0)[1] == SlotRun(1, 1, 1)
  {
    hide Runs, Initial;
    var c := Settings(guardUs);
    assert Initial(c, QUIET) by { QuietInitial(guardUs); }
    assert Same(c.slots, 0, 1) == 0 && Same(c.slots, 1, 2) == 0;
    assert Runs(c, 0) == [RunAt(c, 0)] + Runs(c, 1) by { OneMore(c, 0); }
    assert Runs(c, 1) == [RunAt(c, 1)] + Runs(c, 2) by { OneMore(c, 1); }
    assert Same(c.slots, 2, 3) == 0;
    assert Runs(c, 2) == [RunAt(c, 2)] + Runs(c, 3) by { OneMore(c, 2); }
  }

  lemma OneMore(c: Config, slot: nat)
    requires Covered(c) && slot < c.total
    ensures Runs(c, slot) == [RunAt(c, slot)] + Runs(c, slot + RunAt(c, slot).count)
  {
  }

  lemma QuietInitial(guardUs: nat)
    ensures Initial(Settings(guardUs), QUIET)
  {
  }

  /** With the simulation's ranges, and its guard of 100 us or any shorter one, the derived 92 us included: in
      some run node 2 hears the ground station's frame of the first session after the frame that node 1 sent
      in the second. */
  lemma GroundOvertaken(guardUs: nat, ch: SimpleWirelessChannel)
    returns (ls: seq<Label>, a: Reception, b: Reception)
    requires guardUs <= 100 && ch.range == 27800.0 && ch.groundRange == 150000.0 && ch.groundId == 0
    requires MacLow(2, 2) in ch.macLows
    ensures Legal(Settings(guardUs), QUIET, ls)
    ensures var air := Exec(Settings(guardUs), QUIET, ls).tr.air;
            && |air| == 2 && air[0].session < air[1].session && a.to == b.to == MacLow(2, 2)
            && ch.Heard(air[0].at, MacLow(0, 0), Distance(), a) && ch.Heard(air[1].at, MacLow(1, 1), Distance(), b)
    ensures b.at < a.at && GuardFromRange(ch.range) == 92
  {
    hide Runs, Legal, Exec, Covered, Initial;
    var c := Settings(guardUs);
    SettingsRuns(guardUs);
    assert TxTime(c.bps, LONG.size) == 1018181 && TxTime(c.bps, SHORT.size) == 46545;
    ls := TwoFrames(c, QUIET, LONG, SHORT);
    var air := Exec(c, QUIET, ls).tr.air;
    assert Propagation(150000.0) == 495000 && Propagation(20000.0) == 66000;
    a := Reception(air[0].at + 495000, MacLow(2, 2));
    b := Reception(air[1].at + 66000, MacLow(2, 2));
  }
}
