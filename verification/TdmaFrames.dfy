/**
 The session chain in closed form: every frame serves the maximal runs of equally owned slots,
 in order, and frames repeat exactly. Then: full slot coverage is necessary as well as sufficient
 for the chain never to miss a slot.
 */
module TdmaFrames {
  import opened Wrappers
  import opened MacQueue
  import opened TdmaModel
  import opened TdmaSafety
  import opened TdmaResults

  /** `count` slots from `slot` on, all owned by `mac`. */
  datatype SlotRun = SlotRun(mac: MacId, slot: nat, count: nat)

  lemma RunFits(c: Config, slot: nat)
    requires Covered(c) && slot < c.total
    ensures slot + 1 + Same(c.slots, c.slots[slot], slot + 1) <= c.total
  {
    StaysInFrame(c, slot, Same(c.slots, c.slots[slot], slot + 1));
  }

  lemma StaysInFrame(c: Config, slot: nat, n: nat)
    requires Covered(c) && slot < c.total
    requires forall j :: slot + 1 <= j < slot + 1 + n ==> j in c.slots && c.slots[j] == c.slots[slot]
    ensures slot + 1 + n <= c.total
  {
    assert forall j :: slot + 1 <= j < slot + 1 + n ==> j in c.slots && c.slots[j] == c.slots[slot];
  }

  /** The maximal run that starts at `slot`. */
  function RunAt(c: Config, slot: nat): (r: SlotRun)
    requires Covered(c) && slot < c.total
    ensures slot + r.count <= c.total && 0 < r.count
  {
    RunFits(c, slot);
    SlotRun(c.slots[slot], slot, 1 + Same(c.slots, c.slots[slot], slot + 1))
  }

  /** The maximal same-owner runs of the frame, from `slot` to its end. */
  function Runs(c: Config, slot: nat): seq<SlotRun>
    requires Covered(c) && slot <= c.total
    decreases c.total - slot
  {
    if slot == c.total then []
    else [RunAt(c, slot)] + Runs(c, slot + RunAt(c, slot).count)
  }

  /** Non-empty runs of one owner each. */
  predicate Owned(c: Config, rs: seq<SlotRun>) {
    && (forall j :: 0 <= j < |rs| ==> 0 < rs[j].count)
    && (forall j, k :: 0 <= j < |rs| && rs[j].slot <= k < rs[j].slot + rs[j].count ==>
          k in c.slots && c.slots[k] == rs[j].mac)
  }

  /** They tile [from, total) in order, and neighbours have different owners. */
  predicate Tiles(c: Config, rs: seq<SlotRun>, from: nat) {
    && (rs == [] ==> from == c.total)
    && (rs != [] ==> rs[0].slot == from && rs[|rs| - 1].slot + rs[|rs| - 1].count == c.total)
    && (forall j :: 0 < j < |rs| ==> rs[j].slot == rs[j - 1].slot + rs[j - 1].count)
    && (forall j :: 0 < j < |rs| ==> rs[j - 1].mac != rs[j].mac)
  }

  lemma {:induction false} RunsOwned(c: Config, slot: nat)
    requires Covered(c) && slot <= c.total
    ensures Owned(c, Runs(c, slot))
    decreases c.total - slot
  {
    hide Same, Covered;
    if slot < c.total {
      var r := RunAt(c, slot);
      RunsOwned(c, slot + r.count);
      assert Owned(c, [r]) by { RunOwned(c, slot); }
    }
  }

  lemma RunOwned(c: Config, slot: nat)
    requires Covered(c) && slot < c.total
    ensures Owned(c, [RunAt(c, slot)])
    ensures var r := RunAt(c, slot);
            slot + r.count < c.total ==> slot + r.count in c.slots && c.slots[slot + r.count] != r.mac
  {
    hide Same;
  }

  lemma {:induction false} RunsTile(c: Config, slot: nat)
    requires Covered(c) && slot <= c.total
    ensures Tiles(c, Runs(c, slot), slot)
    decreases c.total - slot
  {
    hide Same, Covered;
    if slot < c.total {
      var r := RunAt(c, slot);
      var t := Runs(c, slot + r.count);
      RunsTile(c, slot + r.count);
      RunOwned(c, slot);
      assert Runs(c, slot) == [r] + t;
      assert t != [] ==> t[0].mac == c.slots[slot + r.count];
    }
  }

  /** The frame is partitioned into its maximal same-owner runs, in order. */
  lemma FramePartition(c: Config)
    requires Covered(c)
    ensures Owned(c, Runs(c, 0)) && Tiles(c, Runs(c, 0), 0) && Runs(c, 0) != []
  {
    RunsOwned(c, 0);
    RunsTile(c, 0);
  }

  lemma TilesTail(c: Config, rs: seq<SlotRun>, from: nat)
    requires Owned(c, rs) && Tiles(c, rs, from) && rs != []
    ensures Owned(c, rs[1..]) && Tiles(c, rs[1..], from + rs[0].count) && rs[0].slot == from
  {
    var t := rs[1..];
    assert t != [] ==> t[|t| - 1] == rs[|rs| - 1];
    assert forall j :: 0 <= j < |t| ==> t[j] == rs[j + 1];
  }

  /** Each slot from `from` on lies in exactly one of tiling runs. */
  lemma {:induction false} EachSlotOnce(c: Config, rs: seq<SlotRun>, from: nat, k: nat) returns (j: nat)
    requires Owned(c, rs) && Tiles(c, rs, from) && from <= k < c.total
    ensures j < |rs| && rs[j].slot <= k < rs[j].slot + rs[j].count
    ensures forall i :: 0 <= i < |rs| && i != j ==> !(rs[i].slot <= k < rs[i].slot + rs[i].count)
  {
    if k < from + rs[0].count {
      j := 0;
      forall i | 0 < i < |rs| ensures rs[i].slot > k {
        RunsAscend(c, rs, from, 0, i);
      }
    } else {
      TilesTail(c, rs, from);
      hide Tiles, Owned;
      var t := rs[1..];
      var i := EachSlotOnce(c, t, from + rs[0].count, k);
      j := i + 1;
      assert forall i :: 0 < i < |rs| ==> rs[i] == t[i - 1];
    }
  }

  lemma {:induction false} RunsAscend(c: Config, rs: seq<SlotRun>, from: nat, i: nat, j: nat)
    requires Owned(c, rs) && Tiles(c, rs, from) && i < j < |rs|
    ensures rs[i].slot + rs[i].count <= rs[j].slot
    decreases j
  {
    if i < j - 1 {
      RunsAscend(c, rs, from, i, j - 1);
    }
  }

  // ---------------------------------------------------------------- periodicity

  /** Nanoseconds from one frame to the next. */
  function FrameTime(c: Config): nat
    requires Covered(c)
  {
    1000 * (c.slotUs * c.total + c.guardUs * |Runs(c, 0)| + c.interUs)
  }

  /** Session j of frame f, when the first frame starts at `base`. */
  function Expected(c: Config, base: int, f: nat, j: nat): Window
    requires Covered(c) && j < |Runs(c, 0)|
  {
    var r := Runs(c, 0)[j];
    Window(r.mac, r.slot, r.count,
           base + f * FrameTime(c) + 1000 * (c.slotUs * r.slot + c.guardUs * j),
           1000 * (c.slotUs * r.count))
  }

  /** A maximal window at a run's slot is that run. */
  lemma WindowIsRun(c: Config, w: Window, rs: seq<SlotRun>, j: nat)
    requires WindowOk(c, w) && Owned(c, rs) && Tiles(c, rs, 0) && j < |rs| && w.slot == rs[j].slot
    ensures w.count == rs[j].count && w.mac == rs[j].mac
  {
    var r := rs[j];
    assert c.slots[w.slot] == r.mac;
    assert r.slot + r.count <= c.total by {
      if j < |rs| - 1 { RunsAscend(c, rs, 0, j, |rs| - 1); }
    }
    assert w.count < r.count ==> w.slot + w.count in c.slots;
    assert j + 1 < |rs| ==> c.slots[rs[j + 1].slot] == rs[j + 1].mac;
  }

  lemma FrameStep(slotUs: nat, guardUs: nat, slot: nat, count: nat, j: nat)
    ensures 1000 * (slotUs * slot + guardUs * j) + 1000 * (slotUs * count) + 1000 * guardUs
         == 1000 * (slotUs * (slot + count) + guardUs * (j + 1))
  {
    assert slotUs * (slot + count) == slotUs * slot + slotUs * count;
    assert guardUs * (j + 1) == guardUs * j + guardUs;
  }

  lemma NextMultiple(f: nat, t: int)
    ensures (f + 1) * t == f * t + t
  {
  }

  /** The session after session j of frame f. */
  lemma NextInFrame(c: Config, base: int, f: nat, j: nat, v: Window)
    requires Covered(c) && j + 1 < |Runs(c, 0)| && WindowOk(c, v) && Follows(c, Expected(c, base, f, j), v)
    ensures v == Expected(c, base, f, j + 1)
  {
    hide FrameTime, Runs, Covered;
    FramePartition(c);
    var rs := Runs(c, 0);
    var l := |rs| - 1;
    assert rs[j + 1].slot < c.total by {
      if j + 1 < l { RunsAscend(c, rs, 0, j + 1, l); }
    }
    WindowIsRun(c, v, rs, j + 1);
    FrameStep(c.slotUs, c.guardUs, rs[j].slot, rs[j].count, j);
  }

  lemma FrameEnd(c: Config, slot: nat, count: nat, l: nat)
    requires Covered(c) && |Runs(c, 0)| == l + 1 && slot + count == c.total
    ensures 1000 * (c.slotUs * slot + c.guardUs * l) + 1000 * (c.slotUs * count) + 1000 * (c.guardUs + c.interUs)
         == FrameTime(c)
  {
    FrameStep(c.slotUs, c.guardUs, slot, count, l);
  }

  lemma FrameStart(c: Config, base: int, f: nat)
    requires Covered(c) && Runs(c, 0) != [] && Runs(c, 0)[0].slot == 0
    ensures Expected(c, base, f, 0).start == base + f * FrameTime(c)
  {
    assert c.slotUs * 0 == 0 && c.guardUs * 0 == 0;
  }

  lemma NextFrame(c: Config, base: int, f: nat, v: Window)
    requires Covered(c) && WindowOk(c, v)
    requires |Runs(c, 0)| > 0 && Follows(c, Expected(c, base, f, |Runs(c, 0)| - 1), v)
    ensures v == Expected(c, base, f + 1, 0)
  {
    hide Runs, Covered, FrameTime;
    FramePartition(c);
    var rs := Runs(c, 0);
    var l := |rs| - 1;
    WindowIsRun(c, v, rs, 0);
    FrameEnd(c, rs[l].slot, rs[l].count, l);
    NextMultiple(f, FrameTime(c));
    FrameStart(c, base, f + 1);
  }

  lemma FirstSession(c: Config, w: Window, base: int)
    requires Covered(c) && WindowOk(c, w) && w.slot == 0 && w.start == base && 0 < |Runs(c, 0)|
    ensures w == Expected(c, base, 0, 0)
  {
    hide Covered, Runs, FrameTime;
    FramePartition(c);
    WindowIsRun(c, w, Runs(c, 0), 0);
    FrameStart(c, base, 0);
    assert 0 * FrameTime(c) == 0;
  }

  lemma {:induction false} SessionIs(c: Config, ws: seq<Window>, startedAt: int, f: nat, j: nat)
    requires Covered(c) && WindowsOk(c, ws, startedAt) && j < |Runs(c, 0)| && f * |Runs(c, 0)| + j < |ws|
    ensures ws[f * |Runs(c, 0)| + j] == Expected(c, startedAt + 10, f, j)
    decreases f, j
  {
    hide Covered, Runs, Expected, Follows, WindowOk;
    var R := |Runs(c, 0)|;
    var i := f * R + j;
    if j > 0 {
      SessionIs(c, ws, startedAt, f, j - 1);
      NextInFrame(c, startedAt + 10, f, j - 1, ws[i]);
    } else if f > 0 {
      NextMultiple(f - 1, R);
      SessionIs(c, ws, startedAt, f - 1, R - 1);
      NextFrame(c, startedAt + 10, f - 1, ws[i]);
    } else {
      FirstSession(c, ws[0], startedAt + 10);
    }
  }

  /** How many sessions a frame has. */
  function RunCount(c: Config): (n: nat)
    requires Covered(c)
    ensures 0 < n
  {
    FramePartition(c);
    |Runs(c, 0)|
  }

  /** Exact periodicity in every reachable state: the i-th session is run i % R of frame i / R, where R is
      the number of maximal runs; frame f starts at 10 ns + f frame times after Start. */
  lemma ExactFrames(c: Config, s0: State, ls: seq<Label>, i: nat)
    requires Covered(c) && Initial(c, s0) && Legal(c, s0, ls) && i < |Exec(c, s0, ls).tr.windows|
    ensures var tr, R := Exec(c, s0, ls).tr, RunCount(c);
            var f, j := i / R, i % R;
            var r := Runs(c, 0)[j];
            var F := 1000 * (c.slotUs * c.total + c.guardUs * R + c.interUs);
            tr.windows[i] == Window(r.mac, r.slot, r.count,
                                    tr.startedAt + 10 + f * F + 1000 * (c.slotUs * r.slot + c.guardUs * j),
                                    1000 * (c.slotUs * r.count))
  {
    hide AirOk, Accounts, QueuesOk, WindowsOk, Runs, Covered, Initial, Sending, Exec, Legal;
    Reached(c, s0, ls);
    var R := RunCount(c);
    assert i == i / R * R + i % R;
    SessionIs(c, Exec(c, s0, ls).tr.windows, Exec(c, s0, ls).tr.startedAt, i / R, i % R);
  }

  /** One frame time after any of its sessions, the owner has the same slots again; so successive
      session starts of a slot owner are at most one frame time apart. */
  lemma OwnerReturns(c: Config, s0: State, ls: seq<Label>, i: nat)
    requires Covered(c) && Initial(c, s0) && Legal(c, s0, ls)
    requires i + RunCount(c) < |Exec(c, s0, ls).tr.windows|
    ensures var ws := Exec(c, s0, ls).tr.windows;
            ws[i + RunCount(c)] == ws[i].(start := ws[i].start + FrameTime(c))
  {
    hide AirOk, Accounts, QueuesOk, Covered, Runs, FrameTime, Initial, Sending, Exec, Legal, WindowsOk;
    FramePartition(c);
    Reached(c, s0, ls);
    var s := Exec(c, s0, ls);
    var f, j := Position(i, |Runs(c, 0)|);
    NextMultiple(f, |Runs(c, 0)|);
    NextMultiple(f, FrameTime(c));
    SessionIs(c, s.tr.windows, s.tr.startedAt, f, j);
    SessionIs(c, s.tr.windows, s.tr.startedAt, f + 1, j);
  }

  lemma {:induction false} Position(i: nat, R: nat) returns (f: nat, j: nat)
    requires 0 < R
    ensures i == f * R + j && j < R
  {
    if i < R {
      f, j := 0, i;
      assert 0 * R == 0;
    } else {
      f, j := Position(i - R, R);
      NextMultiple(f, R);
      f := f + 1;
    }
  }

  // ---------------------------------------------------------------- coverage is exact

  /** Following session events from `slot` finds an owner each time until the frame ends. */
  predicate Walk(c: Config, slot: nat)
    decreases |KeysFrom(c.slots, slot)|
  {
    slot in c.slots &&
    var n := 1 + Same(c.slots, c.slots[slot], slot + 1);
    KeysShrink(c.slots, slot, n);
    slot + n == c.total || Walk(c, slot + n)
  }

  lemma {:induction false} WalkCovers(c: Config, slot: nat)
    requires Walk(c, slot)
    ensures slot < c.total
    ensures forall k :: slot <= k < c.total ==> k in c.slots
    ensures c.total in c.slots ==> c.slots[c.total] != c.slots[c.total - 1]
    decreases |KeysFrom(c.slots, slot)|
  {
    var n := 1 + Same(c.slots, c.slots[slot], slot + 1);
    KeysShrink(c.slots, slot, n);
    assert forall j :: slot <= j < slot + n ==> j in c.slots && c.slots[j] == c.slots[slot];
    if slot + n != c.total {
      WalkCovers(c, slot + n);
    } else {
      assert c.total - 1 in c.slots && c.slots[c.total - 1] == c.slots[slot];
    }
  }

  lemma {:induction false} CoveredWalks(c: Config, slot: nat)
    requires Covered(c) && slot < c.total
    ensures Walk(c, slot)
    decreases c.total - slot
  {
    var n := 1 + Same(c.slots, c.slots[slot], slot + 1);
    RunFits(c, slot);
    KeysShrink(c.slots, slot, n);
    if slot + n != c.total {
      CoveredWalks(c, slot + n);
    }
  }

  lemma WalkIffCovered(c: Config)
    ensures Walk(c, 0) <==> Covered(c)
  {
    if Walk(c, 0) { WalkCovers(c, 0); }
    if Covered(c) { CoveredWalks(c, 0); }
  }

  /** Nothing queued anywhere and only the session event `ev` pending. */
  predicate Quiet(c: Config, s: State, ev: Event) {
    && !s.fault && |s.events| == 1 && s.events[0].ev == ev
    && s.queues.Keys == s.tr.logs.Keys
    && (forall m :: m in s.queues ==> s.queues[m].items == [])
    && (forall k :: k in c.slots ==> c.slots[k] in s.queues)
  }

  lemma QuietStep(c: Config, s: State, slot: nat, ev: Event)
    requires Quiet(c, s, ev) && (ev == Session(slot) || (ev == StartSessions && slot == 0))
    ensures Enabled(s, Fire(0)) && Do(c, s, Fire(0)) == ScheduleSessionF(c, Pop(s, 0), slot)
    ensures slot !in c.slots ==> Do(c, s, Fire(0)).fault
    ensures slot in c.slots ==>
      var n := 1 + Same(c.slots, c.slots[slot], slot + 1);
      slot + n != c.total ==> Quiet(c, Do(c, s, Fire(0)), Session(slot + n))
  {
    hide ScheduleSessionF, Same;
    if slot in c.slots {
      QuietNext(c, s, slot, ev);
    } else {
      MissingSlot(c, Pop(s, 0), slot);
    }
  }

  lemma MissingSlot(c: Config, s: State, slot: nat)
    requires slot !in c.slots
    ensures ScheduleSessionF(c, s, slot).fault
  {
  }

  lemma QuietNext(c: Config, s: State, slot: nat, ev: Event)
    requires Quiet(c, s, ev) && slot in c.slots
    ensures var n := 1 + Same(c.slots, c.slots[slot], slot + 1);
      slot + n != c.total ==> Quiet(c, ScheduleSessionF(c, Pop(s, 0), slot), Session(slot + n))
  {
    hide Same, StartTransmissionF;
    assert Pop(s, 0).events == [];
    var m := c.slots[slot];
    var n := 1 + Same(c.slots, m, slot + 1);
    QuietDrain(c, OpenF(c, Pop(s, 0), slot, n), m, c.slotUs * n);
  }

  lemma QuietDrain(c: Config, s: State, m: MacId, us: nat)
    requires Known(s, m) && s.tr.windows != [] && s.queues[m].items == []
    ensures var r := StartTransmissionF(c, s, m, us);
            r.events == s.events && r.fault == s.fault && r.queues.Keys == s.queues.Keys
            && r.tr.logs.Keys == s.tr.logs.Keys && r.now == s.now
            && (forall k :: k in s.queues && s.queues[k].items == [] ==> r.queues[k].items == [])
  {
  }

  /** In the state reached by `ls`, event `k` is the next session event and misses its slot. */
  predicate Misses(c: Config, s0: State, ls: seq<Label>, k: nat) {
    Legal(c, s0, ls)
    && var s := Exec(c, s0, ls);
       Enabled(s, Fire(k)) && !s.events[k].ev.SendDown? && Do(c, s, Fire(k)).fault
  }

  /** Full coverage is exactly what the session chain needs: it misses a slot in no run at all if
      and only if every slot of the frame is owned and no run of equal owners crosses its end. */
  lemma CoverageIsExact(c: Config, s0: State)
    requires Initial(c, s0)
    ensures Covered(c) <==> forall ls, k: nat :: !Misses(c, s0, ls, k)
  {
    WalkIffCovered(c);
    if Covered(c) {
      forall ls, k: nat ensures !Misses(c, s0, ls, k) {
        if Misses(c, s0, ls, k) {
          Reached(c, s0, ls);
          SessionKeeps(c, Exec(c, s0, ls), k);
        }
      }
    } else {
      var ls, k := FirstMiss(c, s0);
      assert Misses(c, s0, ls, k);
    }
  }

  lemma FirstMiss(c: Config, s0: State) returns (ls: seq<Label>, k: nat)
    requires Initial(c, s0) && !Walk(c, 0)
    ensures Misses(c, s0, ls, k)
  {
    var st := Start(s0.now);
    var r := Do(c, s0, st);
    assert r.events == [Pending(s0.now + 10, StartSessions)];
    var pre, kk := LastStep(c, r, 0, StartSessions);
    Prepend(c, s0, st, pre);
    ls, k := [st] + pre, kk;
  }

  lemma {:induction false} LastStep(c: Config, s: State, slot: nat, ev: Event) returns (ls: seq<Label>, k: nat)
    requires Quiet(c, s, ev) && (ev == Session(slot) || (ev == StartSessions && slot == 0)) && !Walk(c, slot)
    ensures Misses(c, s, ls, k)
    decreases |KeysFrom(c.slots, slot)|
  {
    hide KeysFrom, Do, Same;
    QuietStep(c, s, slot, ev);
    if slot in c.slots {
      var n := 1 + Same(c.slots, c.slots[slot], slot + 1);
      KeysShrink(c.slots, slot, n);
      var r := Do(c, s, Fire(0));
      var rest, kk := LastStep(c, r, slot + n, Session(slot + n));
      Prepend(c, s, Fire(0), rest);
      ls, k := [Fire(0)] + rest, kk;
    } else {
      ls, k := [], 0;
    }
  }
}
