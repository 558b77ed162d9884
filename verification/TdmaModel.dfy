/**
 The TDMA medium as a discrete-event system (tdma-controller.cc, tdma-central-mac.cc).

 A `State` holds the clock, the pending events of one controller and its MACs, and their queues.
 `Trace` only remembers what happened: which sessions were opened, which frames reached the
 channel, which items each queue accepted. Times are nanoseconds; budgets handed to
 StartTransmission are whole microseconds, as in the source.
 */
module TdmaModel {
  import opened Wrappers
  import opened MacQueue

  type pos = x: nat | 0 < x witness 1
  type MacId = nat

  /** Controller attributes (microseconds), data rate and slot map. */
  datatype Config = Config(slotUs: nat, guardUs: nat, interUs: nat, bps: pos,
                           total: nat, slots: map<nat, MacId>)

  datatype Event =
    | StartSessions
    | Session(slot: nat)
    | SendDown(mac: MacId, remaining: nat)

  datatype Pending = Pending(at: int, ev: Event)

  /** One call of ScheduleTdmaSession: `mac` owns [start, start + len) from slot `slot`. */
  datatype Window = Window(mac: MacId, slot: nat, count: nat, start: int, len: int)

  /** The packet measured by StartTransmission and the time it was given. */
  datatype Measured = Measured(item: Item, tx: nat)

  /** A frame on the channel: sent in session number `session`, measured as `peeked`. */
  datatype Frame = Frame(session: nat, mac: MacId, item: Item, peeked: Measured, at: int)

  /** StartTransmission gave up in session `session` on a head needing `head` ns. */
  datatype Stall = Stall(session: nat, head: nat)

  datatype Trace = Trace(startedAt: int, windows: seq<Window>, air: seq<Frame>, stalls: seq<Stall>,
                         peeked: Option<Measured>, logs: map<MacId, Ledger>)

  datatype State = State(now: int, active: bool, events: seq<Pending>,
                         queues: map<MacId, Fifo>, fault: bool, tr: Trace)

  /** Time on the air of `size` bytes, truncated to the nanosecond. */
  function TxTime(bps: pos, size: nat): nat {
    size * 8 * 1_000_000_000 / bps
  }

  /** The time in nanoseconds in which `bps` bits a second carry the bits of the packet, rounded down. */
  lemma TxTimeIs(bps: pos, size: nat)
    ensures TxTime(bps, size) * bps <= 8 * size * 1_000_000_000 < (TxTime(bps, size) + 1) * bps
  {
    var bits := size * 8 * 1_000_000_000;
    assert bits == bits / bps * bps + bits % bps;
  }

  // ---------------------------------------------------------------- slot map

  function KeysFrom(slots: map<nat, MacId>, k: nat): set<nat> {
    set j | j in slots && k <= j
  }

  lemma KeysShrink(slots: map<nat, MacId>, slot: nat, n: nat)
    requires slot in slots && 0 < n
    ensures |KeysFrom(slots, slot + n)| < |KeysFrom(slots, slot)|
  {
    Smaller(KeysFrom(slots, slot + n), KeysFrom(slots, slot) - {slot});
  }

  lemma Smaller(a: set<nat>, b: set<nat>)
    requires a <= b
    ensures |a| <= |b|
  {
    assert b == a + (b - a);
  }

  /** How many consecutive slots from `k` on belong to `owner`. */
  function Same(slots: map<nat, MacId>, owner: MacId, k: nat): (n: nat)
    ensures forall j :: k <= j < k + n ==> j in slots && slots[j] == owner
    ensures k + n in slots ==> slots[k + n] != owner
    decreases |KeysFrom(slots, k)|
  {
    if k in slots && slots[k] == owner then
      KeysShrink(slots, k, 1);
      1 + Same(slots, owner, k + 1)
    else 0
  }

  /** Every slot is owned and no run of equal owners leaves the frame. */
  predicate Covered(c: Config) {
    && 0 < c.total
    && (forall k :: 0 <= k < c.total ==> k in c.slots)
    && (c.total in c.slots ==> c.slots[c.total] != c.slots[c.total - 1])
  }

  // ---------------------------------------------------------------- what each call does

  function Append(s: State, delay: int, ev: Event): State {
    s.(events := s.events + [Pending(s.now + delay, ev)])
  }

  function SetQueue(s: State, m: MacId, f: Fifo, log: Ledger): State {
    s.(queues := s.queues[m := f], tr := s.tr.(logs := s.tr.logs[m := log]))
  }

  predicate Known(s: State, m: MacId) {
    m in s.queues && m in s.tr.logs
  }

  /** IsEmpty and Peek both drop what has expired first. */
  function CleanF(s: State, m: MacId): State
    requires Known(s, m)
  {
    var q := CleanupF(s.queues[m], s.now);
    SetQueue(s, m, q, Expire(s.tr.logs[m], q.maxDelay, s.now))
  }

  function PeekedF(s: State, m: MacId, us: nat, x: Measured): State
    requires x.tx < 1000 * us
  {
    Append(s.(tr := s.tr.(peeked := Some(x))), x.tx, SendDown(m, 1000 * us - x.tx))
  }

  function StalledF(s: State, tx: nat): State
    requires s.tr.windows != []
  {
    s.(tr := s.tr.(stalls := s.tr.stalls + [Stall(|s.tr.windows| - 1, tx)]))
  }

  /** StartTransmission on a queue without expired items. */
  function DrainF(c: Config, s: State, m: MacId, us: nat): State
    requires Known(s, m) && s.tr.windows != []
  {
    if s.queues[m].items == [] then s
    else
      var x := s.queues[m].items[0];
      var tx := TxTime(c.bps, x.packet.size);
      if tx < 1000 * us then PeekedF(s, m, us, Measured(x, tx)) else StalledF(s, tx)
  }

  function StartTransmissionF(c: Config, s: State, m: MacId, us: nat): State
    requires Known(s, m) && s.tr.windows != []
  {
    DrainF(c, CleanF(s, m), m, us)
  }

  /** SendPacketDown up to the hand-over to the channel. A null dequeue is dereferenced: a fault. */
  function HandOverF(s: State, m: MacId): State
    requires Known(s, m) && s.tr.peeked.Some? && s.tr.windows != []
  {
    var (q, i) := DequeueF(s.queues[m], s.now);
    var log := Expire(s.tr.logs[m], q.maxDelay, s.now);
    var s1 := s.(tr := s.tr.(peeked := None));
    if i.None? then SetQueue(s1, m, q, log).(fault := true)
    else
      var f := Frame(|s.tr.windows| - 1, m, i.value, s.tr.peeked.value, s.now);
      SetQueue(s1.(tr := s1.tr.(air := s1.tr.air + [f])), m, q, Settle(log, Oldest(log), Dequeued))
  }

  function SendPacketDownF(c: Config, s: State, m: MacId, remaining: nat): State
    requires Known(s, m) && s.tr.peeked.Some? && s.tr.windows != []
  {
    var s1 := HandOverF(s, m);
    if s1.fault then s1 else StartTransmissionF(c, s1, m, remaining / 1000)
  }

  function OpenF(c: Config, s: State, slot: nat, n: nat): State
    requires slot in c.slots
  {
    s.(tr := s.tr.(windows := s.tr.windows
         + [Window(c.slots[slot], slot, n, s.now, 1000 * (c.slotUs * n))]))
  }

  function RescheduleF(c: Config, s: State, slot: nat, n: nat): State {
    if slot + n == c.total
    then Append(s, 1000 * (c.guardUs + c.slotUs * n + c.interUs), StartSessions)
    else Append(s, 1000 * (c.guardUs + c.slotUs * n), Session(slot + n))
  }

  /** A slot without an owner dereferences the end iterator: a fault. */
  function ScheduleSessionF(c: Config, s: State, slot: nat): State {
    if slot !in c.slots || !Known(s, c.slots[slot]) then s.(fault := true)
    else
      var m := c.slots[slot];
      var n := 1 + Same(c.slots, m, slot + 1);
      RescheduleF(c, StartTransmissionF(c, OpenF(c, s, slot, n), m, c.slotUs * n), slot, n)
  }

  function StartF(s: State): State {
    if s.active then s
    else Append(s.(active := true, tr := s.tr.(startedAt := s.now)), 10, StartSessions)
  }

  function QueueF(s: State, m: MacId, p: Packet, h: WifiMacHeader): State
    requires Known(s, m)
  {
    var (q, ok) := EnqueueF(s.queues[m], s.now, p, h);
    var log := Expire(s.tr.logs[m], q.maxDelay, s.now);
    SetQueue(s, m, q, if ok then log + [Entry(Item(p, h, s.now), Waiting)] else log)
  }

  function DispatchF(c: Config, s: State, ev: Event): State {
    match ev
    case StartSessions => ScheduleSessionF(c, s, 0)
    case Session(slot) => ScheduleSessionF(c, s, slot)
    case SendDown(m, r) =>
      if Known(s, m) && s.tr.peeked.Some? && s.tr.windows != [] then SendPacketDownF(c, s, m, r)
      else s.(fault := true)
  }

  // ---------------------------------------------------------------- runs

  /** One thing that can happen next: some MAC calls Start, upper layers queue a packet at any MAC
      at any time before the next event, or the earliest pending event fires. */
  datatype Label =
    | Start(t: int)
    | Arrive(t: int, m: MacId, p: Packet, h: WifiMacHeader)
    | Fire(k: nat)

  predicate NoEventBefore(s: State, t: int) {
    forall j :: 0 <= j < |s.events| ==> t <= s.events[j].at
  }

  predicate Enabled(s: State, l: Label) {
    !s.fault &&
    match l
    case Start(t) => s.now <= t && NoEventBefore(s, t)
    case Arrive(t, m, _, _) => s.now <= t && NoEventBefore(s, t) && Known(s, m)
    case Fire(k) => k < |s.events| && NoEventBefore(s, s.events[k].at)
  }

  /** The event loop takes event k off the list and moves the clock to it. */
  function Pop(s: State, k: nat): State
    requires k < |s.events|
  {
    s.(now := s.events[k].at, events := s.events[..k] + s.events[k + 1..])
  }

  function Do(c: Config, s: State, l: Label): State
    requires Enabled(s, l)
  {
    match l
    case Start(t) => StartF(s.(now := t))
    case Arrive(t, m, p, h) => QueueF(s.(now := t), m, p, h)
    case Fire(k) => DispatchF(c, Pop(s, k), s.events[k].ev)
  }

  predicate Legal(c: Config, s: State, ls: seq<Label>)
    decreases |ls|
  {
    ls == [] || (Enabled(s, ls[0]) && Legal(c, Do(c, s, ls[0]), ls[1..]))
  }

  function Exec(c: Config, s: State, ls: seq<Label>): State
    requires Legal(c, s, ls)
    decreases |ls|
  {
    if ls == [] then s else Exec(c, Do(c, s, ls[0]), ls[1..])
  }

  /** Before Start: no events, empty queues, one per MAC. */
  predicate Initial(c: Config, s: State) {
    && !s.active && !s.fault && s.events == [] && s.tr.windows == [] && s.tr.air == [] && s.tr.stalls == []
    && s.tr.peeked == None
    && s.queues.Keys == s.tr.logs.Keys
    && (forall m :: m in s.queues ==> s.tr.logs[m] == [])
    && (forall m :: m in s.queues ==>
          s.queues[m] == Fifo([], 0, s.queues[m].maxSize, s.queues[m].maxDelay, 0, []))
    && (forall k :: k in c.slots ==> c.slots[k] in s.queues)
  }
}
