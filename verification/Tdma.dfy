/**
 The TDMA objects as the source has them: a controller with its slot map, one MAC object per node
 with its queue, and the simulator's clock and event list. Every method is proved to do exactly
 what the step functions of TdmaModel say, so the results about runs apply to these objects.
 */
module Tdma {
  import opened Wrappers
  import opened MacQueue
  import opened TdmaModel
  import opened TdmaSafety
  import Channel

  /** Clock and pending events. `crashed` stands for a null or end() dereference. */
  class Simulator {
    var now: int
    var events: seq<Pending>
    var crashed: bool

    constructor ()
      ensures now == 0 && events == [] && !crashed
    {
      now, events, crashed := 0, [], false;
    }

    method Schedule(delay: int, ev: Event)
      modifies `events
      ensures events == old(events) + [Pending(now + delay, ev)]
    {
      events := events + [Pending(now + delay, ev)];
    }
  }

  class TdmaCentralMac {
    const id: MacId
    const queue: TdmaMacQueue
    const controller: TdmaController

    constructor (id: MacId, queue: TdmaMacQueue, controller: TdmaController)
      ensures this.id == id && this.queue == queue && this.controller == controller
    {
      this.id, this.queue, this.controller := id, queue, controller;
    }

    /** This MAC is one of its controller's. */
    ghost predicate Attached()
      reads controller, controller.Repr()
    {
      controller.Valid() && id in controller.macs && controller.macs[id] == this
    }

    method Queue(packet: Packet, hdr: WifiMacHeader) returns (dropped: bool)
      requires Attached()
      modifies queue, controller`abs
      ensures Attached()
      ensures controller.abs == QueueF(old(controller.abs), id, packet, hdr)
      ensures dropped == !EnqueueF(old(queue.Value()), controller.sim.now, packet, hdr).1
    {
      hide CleanupF, EnqueueF, Expire, TdmaController.Wired, TdmaController.Mirrors;
      controller.Here(id);
      controller.Apart(id);
      var ok := queue.Enqueue(controller.sim.now, packet, hdr);
      dropped := !ok;
      controller.Others(id);
      controller.Become(id, QueueF(controller.abs, id, packet, hdr));
    }

    /** The IsEmpty test and the Peek behind it. */
    method Head() returns (head: Option<Item>)
      requires Attached()
      modifies queue, controller`abs
      ensures Attached()
      ensures Known(old(controller.abs), id) && controller.abs == CleanF(old(controller.abs), id)
      ensures controller.abs.tr.windows == old(controller.abs.tr.windows)
      ensures var q := controller.abs.queues[id].items; head == if q == [] then None else Some(q[0])
    {
      hide CleanF, CleanupF, TdmaController.Wired, TdmaController.Mirrors;
      controller.Here(id);
      controller.Apart(id);
      CleanEffect(controller.abs, id);
      var empty := queue.IsEmpty(controller.sim.now);
      if empty {
        head := None;
      } else {
        CleanupTwice(old(queue.Value()), controller.sim.now);
        head := queue.Peek(controller.sim.now);
      }
      controller.Others(id);
      controller.Become(id, CleanF(controller.abs, id));
    }

    method StartTransmission(transmissionTimeUs: nat)
      requires Attached() && controller.abs.tr.windows != []
      modifies queue, controller`abs, controller.sim`events
      ensures Attached()
      ensures controller.abs == StartTransmissionF(controller.Cfg(), old(controller.abs), id, transmissionTimeUs)
    {
      hide CleanF, TxTime, TdmaController.Valid;
      var total := 1000 * transmissionTimeUs;
      var head := Head();
      if head == None {
        return;
      }
      var tx := TxTime(controller.bps, head.value.packet.size);
      if tx < total {
        total := total - tx;
        controller.Measured(Measured(head.value, tx));
        controller.Schedule(tx, SendDown(id, total));
      } else {
        controller.Stalled(tx);
      }
    }

    /** The Dequeue and the hand-over of its answer to the low MAC; a null answer crashes there. */
    method HandOver() returns (crashed: bool)
      requires Attached() && controller.abs.tr.windows != [] && controller.abs.tr.peeked.Some?
      modifies queue, controller`abs, controller.sim`crashed
      ensures Attached()
      ensures controller.abs == HandOverF(old(controller.abs), id)
      ensures crashed == controller.sim.crashed
    {
      hide HandOverF, DequeueF, TdmaController.Wired, TdmaController.Mirrors;
      controller.Here(id);
      controller.Apart(id);
      HandOverEffect(controller.abs, id);
      var item := queue.Dequeue(controller.sim.now);
      if item == None {
        controller.sim.crashed := true;
      }
      controller.Others(id);
      controller.Become(id, HandOverF(controller.abs, id));
      crashed := controller.sim.crashed;
    }

    method SendPacketDown(remaining: nat)
      requires Attached() && controller.abs.tr.windows != [] && controller.abs.tr.peeked.Some?
      modifies queue, controller`abs, controller.sim`events, controller.sim`crashed
      ensures Attached()
      ensures controller.abs == SendPacketDownF(controller.Cfg(), old(controller.abs), id, remaining)
    {
      hide HandOverF, StartTransmissionF;
      HandOverEffect(controller.abs, id);
      var crashed := HandOver();
      if !crashed {
        StartTransmission(remaining / 1000);
      }
    }
  }

  lemma CleanEffect(s: State, m: MacId)
    requires Known(s, m)
    ensures var r := CleanF(s, m);
            && r.tr.windows == s.tr.windows && r.tr.logs.Keys == s.tr.logs.Keys
            && r.now == s.now && r.active == s.active && r.events == s.events && r.fault == s.fault
            && r.queues.Keys == s.queues.Keys && r.queues[m] == CleanupF(s.queues[m], s.now)
            && (forall k :: k in s.queues && k != m ==> r.queues[k] == s.queues[k])
  {
    hide CleanupF, Expire;
  }

  lemma HandOverEffect(s: State, m: MacId)
    requires Known(s, m) && s.tr.peeked.Some? && s.tr.windows != []
    ensures var r, (q, i) := HandOverF(s, m), DequeueF(s.queues[m], s.now);
            && r.tr.windows == s.tr.windows && r.tr.logs.Keys == s.tr.logs.Keys
            && r.now == s.now && r.active == s.active && r.events == s.events
            && r.queues.Keys == s.queues.Keys && r.queues[m] == q
            && (forall k :: k in s.queues && k != m ==> r.queues[k] == s.queues[k])
            && r.fault == (s.fault || i == None)
  {
    hide DequeueF, Expire, Oldest, Settle;
  }

  ghost function Ids(slots: map<nat, TdmaCentralMac>): map<nat, MacId> {
    map k | k in slots :: slots[k].id
  }

  lemma IdsKeys(slots: map<nat, TdmaCentralMac>)
    ensures Ids(slots).Keys == slots.Keys
  {
  }

  lemma IdsInsert(slots: map<nat, TdmaCentralMac>, k: nat, mac: TdmaCentralMac)
    ensures Ids(slots[k := mac]) == Ids(slots)[k := mac.id]
  {
  }

  class TdmaController {
    var slotTime: nat
    var guardTime: nat
    var interFrameTime: nat
    var bps: pos
    var totalSlotsAllowed: nat
    var activeEpoch: bool
    var slotPtrs: map<nat, TdmaCentralMac>
    const sim: Simulator
    /** The MAC objects that pending events point to, by address. */
    var macs: map<MacId, TdmaCentralMac>
    /** The abstract state; `Valid` ties every part of it but the history to the real fields. */
    ghost var abs: State

    ghost function Repr(): set<object>
      reads `macs
    {
      {this, sim} + Queues()
    }

    ghost function Queues(): set<object>
      reads `macs
    {
      set m | m in macs :: macs[m].queue
    }

    /** Which MAC objects there are, with a queue each. */
    ghost predicate Wired()
      reads `macs, `slotPtrs
    {
      && (forall m :: m in macs ==> macs[m].id == m && macs[m].controller == this)
      && (forall m, k :: m in macs && k in macs && m != k ==> macs[m].queue != macs[k].queue)
      && (forall k :: k in slotPtrs ==> slotPtrs[k].id in macs && macs[slotPtrs[k].id] == slotPtrs[k])
    }

    /** `s` is what the real fields say. */
    ghost predicate Mirrors(s: State)
      reads `macs, `activeEpoch, sim, Queues()
    {
      && s.now == sim.now && s.active == activeEpoch && s.events == sim.events && s.fault == sim.crashed
      && s.queues.Keys == macs.Keys && s.tr.logs.Keys == macs.Keys
      && (forall m :: m in macs ==> s.queues[m] == macs[m].queue.Value())
    }

    ghost predicate Valid()
      reads this, Repr()
    {
      Wired() && Mirrors(abs)
    }

    ghost function Cfg(): Config
      reads `slotTime, `guardTime, `interFrameTime, `bps, `totalSlotsAllowed, `slotPtrs
    {
      Config(slotTime, guardTime, interFrameTime, bps, totalSlotsAllowed, Ids(slotPtrs))
    }

    constructor (sim: Simulator)
      ensures Valid() && this.sim == sim && slotPtrs == map[] && macs == map[]
      ensures abs == State(sim.now, false, sim.events, map[], sim.crashed, Trace(0, [], [], [], None, map[]))
      ensures slotTime == 1100 && guardTime == 100 && interFrameTime == 0 && bps == 11_000_000
    {
      this.sim := sim;
      slotTime, guardTime, interFrameTime, bps, totalSlotsAllowed := 1100, 100, 0, 11_000_000, 0;
      activeEpoch, slotPtrs, macs := false, map[], map[];
      abs := State(sim.now, false, sim.events, map[], sim.crashed, Trace(0, [], [], [], None, map[]));
    }

    /** A further MAC object with an empty queue of its own. */
    method Attach(mac: TdmaCentralMac)
      requires Valid() && mac.controller == this && mac.id !in macs
      requires forall m :: m in macs ==> macs[m].queue != mac.queue
      modifies `macs, `abs
      ensures mac.Attached() && macs == old(macs)[mac.id := mac]
      ensures abs == old(abs).(queues := old(abs).queues[mac.id := mac.queue.Value()],
                               tr := old(abs).tr.(logs := old(abs).tr.logs[mac.id := []]))
    {
      macs := macs[mac.id := mac];
      abs := abs.(queues := abs.queues[mac.id := mac.queue.Value()], tr := abs.tr.(logs := abs.tr.logs[mac.id := []]));
    }

    /** `s` differs from the recorded state in the queue of `m` at most, and the real fields agree. */
    ghost predicate Fits(m: MacId, s: State)
      reads this, Repr()
    {
      && m in macs && s.queues.Keys == macs.Keys == s.tr.logs.Keys == abs.queues.Keys
      && s.now == sim.now && s.active == activeEpoch && s.events == sim.events && s.fault == sim.crashed
      && s.queues[m] == macs[m].queue.Value()
      && (forall k :: k in macs && k != m ==> s.queues[k] == abs.queues[k] == macs[k].queue.Value())
    }

    /** What the recorded state says of MAC `m`. */
    lemma Here(m: MacId)
      requires Valid() && m in macs
      ensures Known(abs, m) && abs.queues[m] == macs[m].queue.Value()
      ensures abs.queues.Keys == abs.tr.logs.Keys == macs.Keys
      ensures abs.now == sim.now && abs.active == activeEpoch && abs.events == sim.events && abs.fault == sim.crashed
    {
    }

    /** The queues of the other MACs still are what was recorded. */
    twostate lemma Others(m: MacId)
      requires old(Valid()) && m in macs && macs == old(macs) && abs == old(abs)
      requires forall k :: k in macs && k != m ==> unchanged(macs[k].queue)
      ensures forall k :: k in macs && k != m ==> abs.queues[k] == macs[k].queue.Value()
    {
    }

    lemma Apart(m: MacId)
      requires Wired() && m in macs
      ensures forall k :: k in macs && k != m ==> macs[k].queue != macs[m].queue
      ensures this !in Queues() && sim !in Queues()
    {
    }

    /** Records the new state. */
    ghost method Become(m: MacId, s: State)
      requires Wired() && Fits(m, s)
      modifies `abs
      ensures abs == s && Valid()
    {
      hide Wired;
      abs := s;
    }

    /** Only the history changes. */
    ghost method Measured(x: Measured)
      requires Valid()
      modifies `abs
      ensures Valid() && abs == old(abs).(tr := old(abs).tr.(peeked := Some(x)))
    {
      abs := abs.(tr := abs.tr.(peeked := Some(x)));
    }

    ghost method Stalled(tx: nat)
      requires Valid() && abs.tr.windows != []
      modifies `abs
      ensures Valid() && abs == StalledF(old(abs), tx)
    {
      abs := StalledF(abs, tx);
    }

    ghost method Opened(slot: nat, n: nat)
      requires Valid() && slot in Cfg().slots
      modifies `abs
      ensures Valid() && abs == OpenF(Cfg(), old(abs), slot, n) && abs.tr.windows != []
    {
      hide Wired;
      abs := OpenF(Cfg(), abs, slot, n);
    }

    method Schedule(delay: int, ev: Event)
      requires Valid()
      modifies `abs, sim`events
      ensures Valid() && abs == Append(old(abs), delay, ev)
    {
      sim.Schedule(delay, ev);
      abs := Append(abs, delay, ev);
    }

    // ---------------------------------------------------------------- attributes

    /** The time in nanoseconds is kept in whole microseconds: no slot is longer than asked for, and it
        is shorter by less than a microsecond. */
    method SetSlotTime(ns: nat)
      modifies `slotTime
      ensures 1000 * slotTime <= ns < 1000 * (slotTime + 1)
    {
      slotTime := ns / 1000;
    }

    /** With a channel attached the argument is ignored: the guard comes from the channel's range. */
    method SetGaurdTime(ns: nat, channel: Channel.SimpleWirelessChannel?)
      requires channel != null ==> 0.0 <= channel.range
      modifies `guardTime
      ensures channel != null ==> guardTime == Channel.GuardFromRange(channel.range)
      ensures channel == null ==> 1000 * guardTime <= ns < 1000 * (guardTime + 1)
    {
      if channel != null {
        var r := channel.GetMaxRange();
        guardTime := (r / 300000000.0 * 1000000.0).Floor;
      } else {
        guardTime := ns / 1000;
      }
    }

    method SetTotalSlotsAllowed(slots: nat)
      requires Valid()
      modifies `totalSlotsAllowed, `slotPtrs
      ensures Valid() && totalSlotsAllowed == slots && slotPtrs == map[]
    {
      totalSlotsAllowed := slots;
      slotPtrs := map[];
    }

    /** Insertion does not replace an existing owner. */
    method AddTdmaSlot(slotPos: nat, mac: TdmaCentralMac)
      requires mac.Attached() && mac.controller == this
      modifies `slotPtrs
      ensures Valid() && mac.Attached()
      ensures slotPtrs == if slotPos in old(slotPtrs) then old(slotPtrs) else old(slotPtrs)[slotPos := mac]
      ensures var slots := old(Cfg()).slots;
              Cfg() == old(Cfg()).(slots := if slotPos in slots then slots else slots[slotPos := mac.id])
    {
      hide Mirrors, Ids;
      assert this !in Queues();
      IdsInsert(slotPtrs, slotPos, mac);
      IdsKeys(slotPtrs);
      if slotPos !in slotPtrs {
        slotPtrs := slotPtrs[slotPos := mac];
      }
    }

    // ---------------------------------------------------------------- the session chain

    method Start()
      requires Valid()
      modifies `activeEpoch, `abs, sim`events
      ensures Valid() && abs == StartF(old(abs))
    {
      if !activeEpoch {
        activeEpoch := true;
        abs := abs.(active := true, tr := abs.tr.(startedAt := abs.now));
        Schedule(10, StartSessions);
      }
    }

    method StartTdmaSessions()
      requires Valid()
      modifies `abs, sim`events, sim`crashed, Queues()
      ensures Valid() && abs == ScheduleSessionF(Cfg(), old(abs), 0)
    {
      ScheduleTdmaSession(0);
    }

    /** The loop that merges the adjacent slots of one owner into a session. */
    method CountSlots(slotNum: nat) returns (numOfSlotsAllotted: nat)
      requires Valid() && slotNum in slotPtrs
      ensures Valid() && numOfSlotsAllotted == 1 + Same(Cfg().slots, slotPtrs[slotNum].id, slotNum + 1)
    {
      hide Valid, KeysFrom, Ids;
      var it := slotPtrs[slotNum];
      numOfSlotsAllotted := 1;
      OwnerAt(slotNum, slotNum + 1);
      while slotNum + numOfSlotsAllotted in slotPtrs && it == slotPtrs[slotNum + numOfSlotsAllotted]
        invariant 1 <= numOfSlotsAllotted && Valid()
        invariant 1 + Same(Cfg().slots, it.id, slotNum + 1)
               == numOfSlotsAllotted + Same(Cfg().slots, it.id, slotNum + numOfSlotsAllotted)
        decreases |KeysFrom(Cfg().slots, slotNum + numOfSlotsAllotted)|
      {
        OwnerAt(slotNum, slotNum + numOfSlotsAllotted);
        KeysShrink(Cfg().slots, slotNum + numOfSlotsAllotted, 1);
        numOfSlotsAllotted := numOfSlotsAllotted + 1;
      }
      OwnerAt(slotNum, slotNum + numOfSlotsAllotted);
    }

    /** Two slots have one owner in the abstract map exactly when they point to one MAC object. */
    lemma OwnerAt(slotNum: nat, k: nat)
      requires Valid() && slotNum in slotPtrs
      ensures k in Cfg().slots <==> k in slotPtrs
      ensures k in slotPtrs ==> (Cfg().slots[k] == slotPtrs[slotNum].id <==> slotPtrs[k] == slotPtrs[slotNum])
    {
      hide Mirrors;
    }

    method ScheduleTdmaSession(slotNum: nat)
      requires Valid()
      modifies `abs, sim`events, sim`crashed, Queues()
      ensures Valid() && abs == ScheduleSessionF(Cfg(), old(abs), slotNum)
    {
      hide StartTransmissionF, Same;
      if slotNum !in slotPtrs {
        sim.crashed := true;
        abs := abs.(fault := true);
        return;
      }
      Serve(slotNum);
    }

    /** A session for the owner of `slotNum`, and the event of the next one. */
    method Serve(slotNum: nat)
      requires Valid() && slotNum in slotPtrs
      modifies `abs, sim`events, Queues()
      ensures Valid() && abs == ScheduleSessionF(Cfg(), old(abs), slotNum)
    {
      hide StartTransmissionF, Same, Repr, OpenF, Ids, Wired, Mirrors;
      var it := slotPtrs[slotNum];
      var numOfSlotsAllotted := CountSlots(slotNum);
      Owns(slotNum);
      var transmissionSlot := slotTime * numOfSlotsAllotted;
      var total := guardTime + transmissionSlot;
      Opened(slotNum, numOfSlotsAllotted);
      Owns(slotNum);
      it.StartTransmission(transmissionSlot);
      if slotNum + numOfSlotsAllotted == totalSlotsAllowed {
        Schedule(1000 * (total + interFrameTime), StartSessions);
      } else {
        Schedule(1000 * total, Session(slotNum + numOfSlotsAllotted));
      }
    }

    lemma SlotsOwned()
      requires Valid()
      ensures forall k :: k in Cfg().slots ==> Cfg().slots[k] in abs.queues
    {
    }

    lemma Owns(k: nat)
      requires Valid() && k in slotPtrs
      ensures k in Cfg().slots && Cfg().slots[k] == slotPtrs[k].id
      ensures slotPtrs[k].id in macs && macs[slotPtrs[k].id] == slotPtrs[k]
      ensures slotPtrs[k].controller == this && slotPtrs[k].queue in Queues() && Known(abs, slotPtrs[k].id)
    {
      Holds(slotPtrs[k].id);
    }

    lemma Holds(m: MacId)
      requires Valid() && m in macs
      ensures macs[m].Attached() && macs[m].id == m && macs[m].controller == this
      ensures macs[m].queue in Queues() && Known(abs, m)
    {
    }

    /** Event k may fire now, and a send event finds the session and the measurement it belongs to. */
    ghost predicate CanRun(k: nat)
      reads `abs, `macs
    {
      Enabled(abs, Fire(k)) &&
      (abs.events[k].ev.SendDown? ==>
         abs.events[k].ev.mac in macs && abs.tr.windows != [] && abs.tr.peeked.Some?)
    }

    /** The event loop takes event k off the list and moves the clock to it. */
    method Advance(k: nat) returns (ev: Event)
      requires Valid() && k < |abs.events|
      modifies `abs, sim
      ensures Valid() && abs == Pop(old(abs), k) && ev == old(abs).events[k].ev
    {
      hide Wired;
      ev := sim.events[k].ev;
      sim.now := sim.events[k].at;
      sim.events := sim.events[..k] + sim.events[k + 1..];
      abs := Pop(abs, k);
    }

    /** The simulator runs pending event k: the clock moves to it and its handler is called. */
    method RunEvent(k: nat)
      requires Valid() && CanRun(k)
      modifies `abs, sim, Queues()
      ensures Valid() && abs == Do(Cfg(), old(abs), Fire(k))
    {
      hide ScheduleSessionF, SendPacketDownF, Wired, Mirrors, Repr;
      var ev := Advance(k);
      match ev
      case StartSessions => StartTdmaSessions();
      case Session(slot) => ScheduleTdmaSession(slot);
      case SendDown(m, r) =>
        var mac := macs[m];
        Holds(m);
        mac.SendPacketDown(r);
    }

    /** The clock moves to an instant at which something outside the event list calls these objects. */
    method Wait(t: int)
      requires Valid()
      modifies `abs, sim`now
      ensures Valid() && abs == old(abs).(now := t)
    {
      hide Wired;
      sim.now := t;
      abs := abs.(now := t);
    }

    /** One step of a run: a call of Start, an arrival from the upper layers, or a pending event. */
    method RunStep(l: Label)
      requires Valid() && Inv(Cfg(), abs) && Enabled(abs, l)
      modifies `activeEpoch, `abs, sim, Queues()
      ensures Valid() && abs == Do(Cfg(), old(abs), l)
    {
      hide Inv, QueueF, DispatchF, Wired, Mirrors, Repr, Pop;
      match l
      case Start(t) =>
        Wait(t);
        Start();
      case Arrive(t, m, p, h) =>
        Wait(t);
        Stays(m);
        var dropped := macs[m].Queue(p, h);
      case Fire(k) =>
        RunsCanRun(this, k);
        RunEvent(k);
    }

    lemma Stays(m: MacId)
      requires Valid() && Known(abs, m)
      ensures m in macs && macs[m].Attached() && macs[m].controller == this
      ensures macs[m].queue in Queues() && macs[m].id == m
    {
      Holds(m);
    }

    /** The objects follow any run of the model, step by step, to the state it ends in. */
    method Run(ls: seq<Label>)
      requires Valid() && Inv(Cfg(), abs) && Sound(Cfg(), abs) && Legal(Cfg(), abs, ls)
      modifies `activeEpoch, `abs, sim, Queues()
      ensures Valid() && abs == Exec(Cfg(), old(abs), ls)
      ensures Inv(Cfg(), abs) && Sound(Cfg(), abs)
    {
      hide Inv, Sound, Do, Enabled, Wired, Mirrors, Repr;
      var i := 0;
      while i < |ls|
        invariant i <= |ls| && Valid()
        invariant Inv(Cfg(), abs) && Sound(Cfg(), abs) && Legal(Cfg(), abs, ls[i..])
        invariant Exec(Cfg(), abs, ls[i..]) == Exec(Cfg(), old(abs), ls)
      {
        StepKeeps(Cfg(), abs, ls[i]);
        assert ls[i..][1..] == ls[i + 1..];
        RunStep(ls[i]);
        i := i + 1;
      }
    }
  }

  /** In every state of a run any event the simulator picks can run. */
  lemma RunsCanRun(t: TdmaController, k: nat)
    requires t.Valid() && Inv(t.Cfg(), t.abs) && Enabled(t.abs, Fire(k))
    ensures t.CanRun(k)
  {
    if t.abs.events[k].ev.SendDown? {
      PopSend(t.Cfg(), t.abs, k);
    }
  }
}
