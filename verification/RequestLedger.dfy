/**
 The request queue refines a ledger that never forgets a packet: over any sequence of calls on a
 clock that does not run backwards, every accepted packet is waiting, handed out once, or reported once.
 */
module RequestLedger {
  import opened Wrappers
  import opened RequestQueue

  datatype Fate = Waiting | Sent | Reported

  datatype Record = Record(e: Entry, fate: Fate)

  type Ledger = seq<Record>

  function With(log: Ledger, f: Fate): seq<Entry>
    decreases |log|
  {
    if log == [] then [] else
    var r := With(log[..|log| - 1], f);
    if log[|log| - 1].fate == f then r + [log[|log| - 1].e] else r
  }

  function Entries(log: Ledger): seq<Entry> {
    seq(|log|, i requires 0 <= i < |log| => log[i].e)
  }

  predicate Waits(r: Record, p: Entry -> bool) {
    r.fate == Waiting && p(r.e)
  }

  /** Every waiting entry that satisfies p is reported. */
  function Mark(log: Ledger, p: Entry -> bool): (r: Ledger)
    ensures |r| == |log|
    ensures forall i :: 0 <= i < |log| ==> r[i] == if Waits(log[i], p) then Record(log[i].e, Reported) else log[i]
  {
    seq(|log|, i requires 0 <= i < |log| => if Waits(log[i], p) then Record(log[i].e, Reported) else log[i])
  }

  /** The first waiting entry that satisfies p, or the length. */
  function Oldest(log: Ledger, p: Entry -> bool): (i: nat)
    ensures i <= |log| && (i < |log| ==> Waits(log[i], p)) && forall k :: 0 <= k < i ==> !Waits(log[k], p)
  {
    if log == [] || Waits(log[0], p) then 0 else 1 + Oldest(log[1..], p)
  }

  function Settle(log: Ledger, i: nat, f: Fate): Ledger {
    if i < |log| then log[i := Record(log[i].e, f)] else log
  }

  function Anyone(): Entry -> bool {
    (e: Entry) => true
  }

  // ---------------------------------------------------------------- calls

  datatype Call =
    | Enqueue(t: int, x: Entry)
    | Dequeue(t: int, dst: Address)
    | DropDst(t: int, dst: Address)
    | Size(t: int)

  /** The queue, the entries it has accepted, and those it has handed out, as its callers saw them. */
  datatype Run = Run(q: Queue, accepted: seq<Entry>, sent: seq<Entry>)

  function Apply(r: Run, c: Call): Run
    requires 0 < r.q.maxLen
  {
    match c
    case Enqueue(t, x) =>
      var (q, ok) := EnqueueF(r.q, t, x);
      r.(q := q, accepted := if ok then r.accepted + [x.(expire := r.q.timeout + t)] else r.accepted)
    case Dequeue(t, dst) =>
      var (q, e) := DequeueF(r.q, t, dst);
      r.(q := q, sent := if e.Some? then r.sent + [e.value] else r.sent)
    case DropDst(t, dst) => r.(q := DropF(r.q, t, dst))
    case Size(t) => r.(q := PurgeF(r.q, t))
  }

  function Room(log: Ledger, maxLen: nat): Ledger {
    if |With(log, Waiting)| == maxLen then Settle(log, Oldest(log, Anyone()), Reported) else log
  }

  /** What the calls mean for the ledger. */
  function Ideal(log: Ledger, maxLen: nat, timeout: int, c: Call): Ledger {
    var now := Mark(log, Expired(c.t));
    match c
    case Enqueue(t, x) =>
      if Oldest(now, Twin(x)) < |now| then now
      else Room(now, maxLen) + [Record(x.(expire := timeout + t), Waiting)]
    case Dequeue(_, dst) => Settle(now, Oldest(now, To(dst)), Sent)
    case DropDst(_, dst) => Mark(now, To(dst))
    case Size(_) => now
  }

  predicate Monotone(cs: seq<Call>, from: int)
    decreases |cs|
  {
    cs == [] || (from <= cs[0].t && Monotone(cs[1..], cs[0].t))
  }

  function End(cs: seq<Call>, from: int): int {
    if cs == [] then from else cs[|cs| - 1].t
  }

  function ApplyAll(r: Run, cs: seq<Call>): (s: Run)
    requires 0 < r.q.maxLen
    ensures s.q.maxLen == r.q.maxLen && s.q.timeout == r.q.timeout
    decreases |cs|
  {
    if cs == [] then r else ApplyAll(Apply(r, cs[0]), cs[1..])
  }

  function IdealAll(log: Ledger, maxLen: nat, timeout: int, cs: seq<Call>): Ledger
    decreases |cs|
  {
    if cs == [] then log else IdealAll(Ideal(log, maxLen, timeout, cs[0]), maxLen, timeout, cs[1..])
  }

  // ---------------------------------------------------------------- agreement

  predicate NoTwins(q: seq<Entry>) {
    forall i, j :: 0 <= i < j < |q| ==> !(q[i].uid == q[j].uid && q[i].dst == q[j].dst)
  }

  predicate Sorted(q: seq<Entry>) {
    forall i, j :: 0 <= i < j < |q| ==> q[i].expire <= q[j].expire
  }

  /** Nothing was handed out past a waiting entry of the same destination. */
  predicate InTurn(log: Ledger) {
    forall i, j :: 0 <= i < j < |log| && log[i].e.dst == log[j].e.dst && log[i].fate == Waiting ==> log[j].fate != Sent
  }

  predicate Counts(r: Run, log: Ledger) {
    && r.q.items == With(log, Waiting)
    && multiset(r.q.reported) == multiset(With(log, Reported))
    && multiset(r.sent) == multiset(With(log, Sent))
  }

  ghost predicate Turns(r: Run, log: Ledger) {
    InTurn(log) && forall d :: Select(r.sent, To(d)) == Select(With(log, Sent), To(d))
  }

  /** The ledger records what callers were told was accepted, in order of acceptance and of expiry. */
  predicate Ordered(r: Run, log: Ledger, now: int) {
    r.accepted == Entries(log) && Sorted(r.accepted)
    && forall i :: 0 <= i < |log| ==> log[i].e.expire <= now + r.q.timeout
  }

  ghost predicate Agree(r: Run, log: Ledger, now: int) {
    Counts(r, log) && Turns(r, log) && Ordered(r, log, now) && |r.q.items| <= r.q.maxLen && NoTwins(r.q.items)
  }

  // ---------------------------------------------------------------- selections and fates

  lemma {:induction false} WithSplit(a: Ledger, b: Ledger, f: Fate)
    ensures With(a + b, f) == With(a, f) + With(b, f)
    decreases |b|
  {
    if b == [] {
      assert a + b == a;
    } else {
      var n := |b| - 1;
      assert (a + b)[..|a| + n] == a + b[..n] && (a + b)[|a| + n] == b[n];
      WithSplit(a, b[..n], f);
    }
  }

  lemma WithOne(r: Record, f: Fate)
    ensures With([r], f) == if r.fate == f then [r.e] else []
  {
    assert [r][..0] == [];
  }

  lemma {:induction false} WithElement(log: Ledger, f: Fate, e: Entry)
    ensures e in With(log, f) <==> Record(e, f) in log
    decreases |log|
  {
    if log != [] {
      WithElement(log[..|log| - 1], f, e);
      assert log == log[..|log| - 1] + [log[|log| - 1]];
    }
  }

  lemma {:induction false} FatesOfMark(log: Ledger, p: Entry -> bool)
    ensures With(Mark(log, p), Waiting) == Select(With(log, Waiting), Not(p))
    ensures With(Mark(log, p), Sent) == With(log, Sent)
    ensures multiset(With(Mark(log, p), Reported))
         == multiset(With(log, Reported)) + multiset(Select(With(log, Waiting), p))
    decreases |log|
  {
    hide Waits;
    if log != [] {
      var n := |log| - 1;
      var m := Mark(log, p);
      FatesOfMark(log[..n], p);
      assert m[..n] == Mark(log[..n], p);
      MarkLast(log[n], p);
      var w := With(log[..n], Waiting);
      assert log[n].fate == Waiting ==> (w + [log[n].e])[..|w|] == w;
    }
  }

  lemma MarkLast(r: Record, p: Entry -> bool)
    ensures Waits(r, p) <==> r.fate == Waiting && p(r.e)
  {
  }

  /** Splitting the ledger at record i splits every fate. */
  lemma SplitAt(log: Ledger, i: nat, f: Fate)
    requires i < |log|
    ensures With(log, f) == With(log[..i], f) + (if log[i].fate == f then [log[i].e] else []) + With(log[i + 1..], f)
  {
    assert log == log[..i] + ([log[i]] + log[i + 1..]);
    WithSplit(log[..i], [log[i]] + log[i + 1..], f);
    WithSplit([log[i]], log[i + 1..], f);
    WithOne(log[i], f);
  }

  lemma SettleSplits(log: Ledger, i: nat, g: Fate, f: Fate)
    requires i < |log|
    ensures With(Settle(log, i, g), f)
         == With(log[..i], f) + (if g == f then [log[i].e] else []) + With(log[i + 1..], f)
  {
    var s := Settle(log, i, g);
    assert s[..i] == log[..i] && s[i + 1..] == log[i + 1..];
    SplitAt(s, i, f);
  }

  lemma {:induction false} FirstIs(q: seq<Entry>, p: Entry -> bool, k: nat)
    requires k <= |q| && (k < |q| ==> p(q[k])) && forall j :: 0 <= j < k ==> !p(q[j])
    ensures First(q, p) == k
  {
    if q != [] && k > 0 {
      assert !p(q[0]);
      FirstIs(q[1..], p, k - 1);
    }
  }

  lemma NoneBefore(log: Ledger, p: Entry -> bool, i: nat)
    requires i <= |log| && forall k :: 0 <= k < i ==> !Waits(log[k], p)
    ensures forall e :: e in With(log[..i], Waiting) ==> !p(e)
  {
    forall e | e in With(log[..i], Waiting) ensures !p(e) {
      WithElement(log[..i], Waiting, e);
      var k :| 0 <= k < i && log[..i][k] == Record(e, Waiting);
      assert !Waits(log[k], p);
    }
  }

  /** The first match in the queue is the oldest match in the ledger. */
  lemma OldestIsFirst(log: Ledger, p: Entry -> bool)
    ensures var w, i := With(log, Waiting), Oldest(log, p);
            && (i < |log| <==> First(w, p) < |w|)
            && (i < |log| ==> First(w, p) == |With(log[..i], Waiting)| && w[First(w, p)] == log[i].e
                              && Without(w, First(w, p)) == With(log[..i], Waiting) + With(log[i + 1..], Waiting))
  {
    hide With;
    var w, i := With(log, Waiting), Oldest(log, p);
    NoneBefore(log, p, i);
    if i < |log| {
      SplitAt(log, i, Waiting);
      FirstIs(w, p, |With(log[..i], Waiting)|);
    } else {
      assert log[..i] == log;
      FirstIs(w, p, |w|);
    }
  }

  // ---------------------------------------------------------------- every call agrees

  lemma {:induction false} SelectKeepsNoTwins(q: seq<Entry>, p: Entry -> bool)
    requires NoTwins(q)
    ensures NoTwins(Select(q, p))
    decreases |q|
  {
    if q != [] {
      var n := |q| - 1;
      SelectKeepsNoTwins(q[..n], p);
      forall k | 0 <= k < |Select(q[..n], p)|
        ensures !(Select(q[..n], p)[k].uid == q[n].uid && Select(q[..n], p)[k].dst == q[n].dst)
      {
        Selected(q[..n], p, Select(q[..n], p)[k]);
      }
    }
  }

  lemma MarkKeepsOrder(r: Run, log: Ledger, p: Entry -> bool, now: int)
    requires Turns(r, log) && Ordered(r, log, now)
    ensures InTurn(Mark(log, p)) && Ordered(r, Mark(log, p), now)
  {
    assert Entries(Mark(log, p)) == Entries(log);
  }

  lemma EraseAgrees(r: Run, log: Ledger, p: Entry -> bool, now: int)
    requires Agree(r, log, now)
    ensures Agree(r.(q := EraseF(r.q, p)), Mark(log, p), now)
  {
    hide InTurn, Sorted, NoTwins;
    FatesOfMark(log, p);
    MarkKeepsOrder(r, log, p, now);
    SelectKeepsNoTwins(r.q.items, Not(p));
    var s := r.(q := EraseF(r.q, p));
    assert Ordered(s, Mark(log, p), now);
  }

  lemma Later(r: Run, log: Ledger, now: int, t: int)
    requires Agree(r, log, now) && now <= t
    ensures Agree(r, log, t)
  {
  }

  lemma PurgeAgrees(r: Run, log: Ledger, now: int, t: int)
    requires Agree(r, log, now) && now <= t
    ensures Agree(r.(q := PurgeF(r.q, t)), Mark(log, Expired(t)), t)
  {
    Later(r, log, now, t);
    EraseAgrees(r, log, Expired(t), t);
  }

  lemma WithoutKeepsNoTwins(q: seq<Entry>, k: nat)
    requires NoTwins(q) && k < |q|
    ensures NoTwins(Without(q, k))
  {
  }

  lemma SettleKeepsOrder(r: Run, log: Ledger, i: nat, f: Fate, now: int)
    requires Ordered(r, log, now)
    ensures Ordered(r, Settle(log, i, f), now)
  {
    assert Entries(Settle(log, i, f)) == Entries(log);
  }

  lemma SentAfter(log: Ledger, i: nat, d: Address)
    requires i < |log| && Select(With(log[i + 1..], Sent), To(d)) != []
    ensures exists j :: i < j < |log| && log[j].e.dst == d && log[j].fate == Sent
  {
    var s := Select(With(log[i + 1..], Sent), To(d));
    Selected(With(log[i + 1..], Sent), To(d), s[0]);
    WithElement(log[i + 1..], Sent, s[0]);
    var j :| 0 <= j < |log| - (i + 1) && log[i + 1..][j] == Record(s[0], Sent);
    assert log[i + 1 + j].fate == Sent;
  }

  /** Nothing for `dst` was handed out after the oldest one waiting. */
  lemma NoneSentAfter(log: Ledger, i: nat)
    requires InTurn(log) && i < |log| && log[i].fate == Waiting
    ensures Select(With(log[i + 1..], Sent), To(log[i].e.dst)) == []
  {
    if Select(With(log[i + 1..], Sent), To(log[i].e.dst)) != [] {
      SentAfter(log, i, log[i].e.dst);
    }
  }

  lemma SettleInTurn(log: Ledger, i: nat, dst: Address)
    requires InTurn(log) && i < |log| && i == Oldest(log, To(dst)) && log[i].e.dst == dst
    ensures InTurn(Settle(log, i, Sent))
  {
    assert forall k :: 0 <= k < i ==> !Waits(log[k], To(dst));
  }

  lemma SentTo(sent: seq<Entry>, log: Ledger, i: nat, d: Address)
    requires InTurn(log) && i < |log| && log[i].fate == Waiting
    requires Select(sent, To(d)) == Select(With(log, Sent), To(d))
    ensures Select(sent + [log[i].e], To(d)) == Select(With(Settle(log, i, Sent), Sent), To(d))
  {
    hide InTurn, With, Settle, Select;
    var e, a, b := log[i].e, With(log[..i], Sent), With(log[i + 1..], Sent);
    SplitAt(log, i, Sent);
    SettleSplits(log, i, Sent, Sent);
    SelectSplit(sent, [e], To(d));
    SelectSplit(a, b, To(d));
    SelectSplit(a + [e], b, To(d));
    SelectSplit(a, [e], To(d));
    SelectOne(e, To(d));
    assert With(log, Sent) == a + b;
    assert With(Settle(log, i, Sent), Sent) == a + [e] + b;
    if e.dst == d {
      NoneSentAfter(log, i);
      assert Select(a, To(d)) + [] == Select(a, To(d));
      assert Select(a, To(d)) + [e] + [] == Select(a, To(d)) + [e];
    } else {
      assert Select(a, To(d)) + [] + Select(b, To(d)) == Select(a, To(d)) + Select(b, To(d));
    }
  }

  lemma SentInTurn(r: Run, log: Ledger, i: nat, dst: Address)
    requires Turns(r, log) && i < |log| && i == Oldest(log, To(dst))
    ensures log[i].e.dst == dst && Turns(r.(sent := r.sent + [log[i].e]), Settle(log, i, Sent))
  {
    hide InTurn, With, Settle, Select;
    SettleInTurn(log, i, dst);
    forall d ensures Select(r.sent + [log[i].e], To(d)) == Select(With(Settle(log, i, Sent), Sent), To(d)) {
      SentTo(r.sent, log, i, d);
    }
  }

  /** Settling one waiting record moves its entry from Waiting to its new fate. */
  lemma SettleMoves(log: Ledger, i: nat, f: Fate)
    requires i < |log| && log[i].fate == Waiting && f != Waiting
    ensures var s := Settle(log, i, f);
            && With(s, Waiting) == With(log[..i], Waiting) + With(log[i + 1..], Waiting)
            && multiset(With(s, f)) == multiset(With(log, f)) + multiset{log[i].e}
            && (forall g :: g != f && g != Waiting ==> With(s, g) == With(log, g))
  {
    hide With;
    SettleSplits(log, i, f, Waiting);
    SettleSplits(log, i, f, f);
    SplitAt(log, i, f);
    forall g | g != f && g != Waiting ensures With(Settle(log, i, f), g) == With(log, g) {
      SettleSplits(log, i, f, g);
      SplitAt(log, i, g);
    }
  }

  lemma TakeCounts(r: Run, log: Ledger, p: Entry -> bool)
    requires Counts(r, log) && Oldest(log, p) < |log|
    ensures var i, k := Oldest(log, p), First(r.q.items, p);
            k < |r.q.items| && r.q.items[k] == log[i].e
            && Counts(r.(q := r.q.(items := Without(r.q.items, k)), sent := r.sent + [log[i].e]), Settle(log, i, Sent))
  {
    hide With, Settle;
    OldestIsFirst(log, p);
    SettleMoves(log, Oldest(log, p), Sent);
  }

  lemma DequeueAgrees(r: Run, log: Ledger, dst: Address, now: int)
    requires Agree(r, log, now) && Oldest(log, To(dst)) < |log|
    ensures var i, k := Oldest(log, To(dst)), First(r.q.items, To(dst));
            k < |r.q.items| && r.q.items[k] == log[i].e
            && Agree(r.(q := r.q.(items := Without(r.q.items, k)), sent := r.sent + [log[i].e]),
                     Settle(log, i, Sent), now)
  {
    hide Counts, Turns, Ordered, NoTwins, Settle, To;
    var i, k := Oldest(log, To(dst)), First(r.q.items, To(dst));
    TakeCounts(r, log, To(dst));
    SentInTurn(r, log, i, dst);
    SettleKeepsOrder(r, log, i, Sent, now);
    WithoutKeepsNoTwins(r.q.items, k);
    var s := r.(q := r.q.(items := Without(r.q.items, k)), sent := r.sent + [log[i].e]);
    OrderedOfItems(r, s, Settle(log, i, Sent), now);
    TurnsOfItems(r.(sent := r.sent + [log[i].e]), s, Settle(log, i, Sent));
  }

  lemma TurnsOfItems(r: Run, s: Run, log: Ledger)
    requires Turns(r, log) && r.sent == s.sent
    ensures Turns(s, log)
  {
  }

  lemma OrderedOfItems(r: Run, s: Run, log: Ledger, now: int)
    requires Ordered(r, log, now) && r.q.timeout == s.q.timeout && r.accepted == s.accepted
    ensures Ordered(s, log, now)
  {
  }

  lemma ReportKeepsTurns(r: Run, log: Ledger, i: nat)
    requires Turns(r, log) && i < |log| && log[i].fate == Waiting
    ensures Turns(r, Settle(log, i, Reported))
  {
    SettleMoves(log, i, Reported);
  }

  lemma EvictAgrees(r: Run, log: Ledger, now: int)
    requires Agree(r, log, now) && r.q.items != []
    ensures Agree(r.(q := r.q.(items := r.q.items[1..], reported := r.q.reported + [r.q.items[0]])),
                  Settle(log, Oldest(log, Anyone()), Reported), now)
  {
    hide Turns, Ordered, NoTwins, With, Settle;
    var i := Oldest(log, Anyone());
    OldestIsFirst(log, Anyone());
    FirstIs(r.q.items, Anyone(), 0);
    assert Without(r.q.items, 0) == r.q.items[1..];
    SettleMoves(log, i, Reported);
    ReportKeepsTurns(r, log, i);
    SettleKeepsOrder(r, log, i, Reported, now);
    WithoutKeepsNoTwins(r.q.items, 0);
    var s := r.(q := r.q.(items := r.q.items[1..], reported := r.q.reported + [r.q.items[0]]));
    OrderedOfItems(r, s, Settle(log, i, Reported), now);
    TurnsOfItems(r, s, Settle(log, i, Reported));
  }

  lemma PushKeepsTurns(r: Run, log: Ledger, x: Entry)
    requires Turns(r, log)
    ensures Turns(r, log + [Record(x, Waiting)])
  {
    WithPush(log, x);
  }

  lemma WithPush(log: Ledger, x: Entry)
    ensures forall f :: With(log + [Record(x, Waiting)], f) == With(log, f) + if f == Waiting then [x] else []
  {
    forall f ensures With(log + [Record(x, Waiting)], f) == With(log, f) + if f == Waiting then [x] else [] {
      WithSplit(log, [Record(x, Waiting)], f);
      WithOne(Record(x, Waiting), f);
    }
  }

  lemma PushKeepsOrder(r: Run, log: Ledger, x: Entry, now: int)
    requires Ordered(r, log, now) && x.expire == now + r.q.timeout
    ensures Ordered(r.(accepted := r.accepted + [x]), log + [Record(x, Waiting)], now)
  {
    assert Entries(log + [Record(x, Waiting)]) == Entries(log) + [x];
  }

  lemma PushAgrees(r: Run, log: Ledger, x: Entry, now: int)
    requires Agree(r, log, now) && x.expire == now + r.q.timeout && |r.q.items| < r.q.maxLen
    requires forall e :: e in r.q.items ==> !Twin(x)(e)
    ensures Agree(r.(q := r.q.(items := r.q.items + [x]), accepted := r.accepted + [x]),
                  log + [Record(x, Waiting)], now)
  {
    hide Turns, Ordered, With;
    var s, more := r.(q := r.q.(items := r.q.items + [x]), accepted := r.accepted + [x]), log + [Record(x, Waiting)];
    WithPush(log, x);
    PushKeepsTurns(r, log, x);
    PushKeepsOrder(r, log, x, now);
    TurnsOfItems(r, s, more);
    OrderedOfItems(r.(accepted := r.accepted + [x]), s, more, now);
    assert forall k :: 0 <= k < |r.q.items| ==> !Twin(x)(r.q.items[k]);
  }

  lemma AgreeItems(r: Run, log: Ledger, now: int)
    requires Agree(r, log, now)
    ensures r.q.items == With(log, Waiting) && |r.q.items| <= r.q.maxLen
  {
  }

  /** The expiry does not matter for being a twin. */
  lemma NoTwinOf(q: seq<Entry>, x: Entry, expire: int)
    requires First(q, Twin(x)) == |q|
    ensures forall e :: e in q ==> !Twin(x.(expire := expire))(e)
  {
    forall e | e in q ensures !Twin(x.(expire := expire))(e) {
      var i :| 0 <= i < |q| && q[i] == e;
      assert !Twin(x)(q[i]);
    }
  }

  lemma EnqueueAgrees(r: Run, log: Ledger, x: Entry, now: int)
    requires Agree(r, log, now) && 0 < r.q.maxLen && Oldest(log, Twin(x)) == |log|
    ensures First(r.q.items, Twin(x)) == |r.q.items|
    ensures var e := x.(expire := r.q.timeout + now);
            Agree(r.(q := PushF(r.q, now, x), accepted := r.accepted + [e]),
                  Room(log, r.q.maxLen) + [Record(e, Waiting)], now)
  {
    hide Agree, Settle, Oldest, With, First, Twin;
    AgreeItems(r, log, now);
    OldestIsFirst(log, Twin(x));
    var e := x.(expire := r.q.timeout + now);
    NoTwinOf(r.q.items, x, e.expire);
    if |r.q.items| == r.q.maxLen {
      EvictAgrees(r, log, now);
      var s := r.(q := r.q.(items := r.q.items[1..], reported := r.q.reported + [r.q.items[0]]));
      PushAgrees(s, Settle(log, Oldest(log, Anyone()), Reported), e, now);
    } else {
      PushAgrees(r, log, e, now);
    }
  }

  lemma StepAgrees(r: Run, log: Ledger, c: Call, now: int)
    requires Agree(r, log, now) && now <= c.t && 0 < r.q.maxLen
    ensures Agree(Apply(r, c), Ideal(log, r.q.maxLen, r.q.timeout, c), c.t)
  {
    hide Agree, Mark, EraseF, PushF, Room;
    var r1, log1 := r.(q := PurgeF(r.q, c.t)), Mark(log, Expired(c.t));
    PurgeAgrees(r, log, now, c.t);
    PurgeKeeps(r.q, c.t);
    AgreeItems(r1, log1, c.t);
    match c
    case Enqueue(t, x) =>
      OldestIsFirst(log1, Twin(x));
      if Oldest(log1, Twin(x)) == |log1| {
        EnqueueAgrees(r1, log1, x, t);
      }
    case Dequeue(t, dst) =>
      OldestIsFirst(log1, To(dst));
      if Oldest(log1, To(dst)) < |log1| {
        DequeueAgrees(r1, log1, dst, t);
      }
    case DropDst(t, dst) =>
      EraseAgrees(r1, log1, To(dst), t);
    case Size(t) =>
  }

  lemma PurgeKeeps(q: Queue, now: int)
    ensures PurgeF(q, now).maxLen == q.maxLen && PurgeF(q, now).timeout == q.timeout
  {
  }

  // ---------------------------------------------------------------- results

  /** After any calls on a clock that never runs backwards the queue says what the ledger says: what
      waits, in order of arrival and expiry and never twice or too much; what was reported; and what was
      handed out, in order of arrival for each destination. */
  lemma {:induction false} QueueRefinesLedger(r: Run, log: Ledger, now: int, cs: seq<Call>)
    requires Agree(r, log, now) && Monotone(cs, now) && 0 < r.q.maxLen
    ensures Agree(ApplyAll(r, cs), IdealAll(log, r.q.maxLen, r.q.timeout, cs), End(cs, now))
    decreases |cs|
  {
    hide Agree, Apply, Ideal;
    if cs != [] {
      StepAgrees(r, log, cs[0], now);
      ApplyKeeps(r, cs[0]);
      QueueRefinesLedger(Apply(r, cs[0]), Ideal(log, r.q.maxLen, r.q.timeout, cs[0]), cs[0].t, cs[1..]);
    }
  }

  lemma ApplyKeeps(r: Run, c: Call)
    requires 0 < r.q.maxLen
    ensures Apply(r, c).q.maxLen == r.q.maxLen && Apply(r, c).q.timeout == r.q.timeout
  {
  }

  lemma EmptyAgrees(q: Queue, now: int)
    requires q.items == [] && q.reported == []
    ensures Agree(Run(q, [], []), [], now)
  {
  }

  lemma {:induction false} FatesPartition(log: Ledger)
    ensures multiset(Entries(log))
         == multiset(With(log, Waiting)) + multiset(With(log, Sent)) + multiset(With(log, Reported))
    decreases |log|
  {
    if log != [] {
      var n := |log| - 1;
      FatesPartition(log[..n]);
      assert Entries(log) == Entries(log[..n]) + [log[n].e];
    }
  }

  /** Conservation: from an empty queue, what Enqueue answered true for = waiting + handed out + reported,
      each entry once. */
  lemma Conservation(maxLen: nat, timeout: int, now: int, cs: seq<Call>)
    requires 0 < maxLen && Monotone(cs, now)
    ensures var r := ApplyAll(Run(Queue([], maxLen, timeout, []), [], []), cs);
            var log := IdealAll([], maxLen, timeout, cs);
            && r.accepted == Entries(log)
            && multiset(r.accepted) == multiset(r.q.items) + multiset(r.sent) + multiset(r.q.reported)
            && |r.q.items| <= maxLen && NoTwins(r.q.items)
  {
    var q := Queue([], maxLen, timeout, []);
    EmptyAgrees(q, now);
    QueueRefinesLedger(Run(q, [], []), [], now, cs);
    FatesPartition(IdealAll([], maxLen, timeout, cs));
  }

  lemma SortedPrefix(q: seq<Entry>)
    requires Sorted(q) && q != []
    ensures Sorted(q[..|q| - 1])
  {
  }

  lemma KeptBeforeExpired(q: seq<Entry>, now: int, k: nat)
    requires Sorted(q) && q != [] && k < |q| && Expired(now)(q[|q| - 1])
    requires k < |q| - 1 ==> !Expired(now)(q[k])
    ensures k == |q| - 1
  {
  }

  /** In a sorted queue a purge cuts off a prefix: the entries past their time. */
  lemma {:induction false} PurgeCutsPrefix(q: seq<Entry>, now: int) returns (k: nat)
    requires Sorted(q)
    ensures k <= |q| && Select(q, Expired(now)) == q[..k] && Select(q, Not(Expired(now))) == q[k..]
    decreases |q|
  {
    hide Sorted, Select, Expired;
    if q == [] {
      SelectNone(Expired(now));
      SelectNone(Not(Expired(now)));
      k := 0;
    } else {
      var n := |q| - 1;
      SortedPrefix(q);
      k := PurgeCutsPrefix(q[..n], now);
      FirstKept(q[..n], now, k);
      SelectStep(q, n, Expired(now));
      SelectStep(q, n, Not(Expired(now)));
      assert q[..n + 1] == q && q == q[..n] + [q[n]];
      if Expired(now)(q[n]) {
        KeptBeforeExpired(q, now, k);
        assert q[..n][..k] == q[..n] && q[..n][k..] == [];
        k := |q|;
        assert q[..k] == q && q[k..] == [];
      } else {
        assert q[..n][..k] == q[..k] && q[k..] == q[..n][k..] + [q[n]];
      }
    }
  }

  lemma FirstKept(q: seq<Entry>, now: int, k: nat)
    requires k <= |q| && Select(q, Not(Expired(now))) == q[k..]
    ensures k < |q| ==> !Expired(now)(q[k])
  {
    if k < |q| {
      Selected(q, Not(Expired(now)), q[k]);
      assert q[k] == q[k..][0];
    }
  }

  /** Waiting entries are sorted by expiry, so eviction takes one with the least time left. */
  lemma WaitingSorted(r: Run, log: Ledger, now: int)
    requires Agree(r, log, now)
    ensures Sorted(r.q.items)
  {
    WithSorted(log, Waiting);
  }

  lemma {:induction false} WithSorted(log: Ledger, f: Fate)
    requires Sorted(Entries(log))
    ensures Sorted(With(log, f))
    decreases |log|
  {
    if log != [] {
      var n := |log| - 1;
      assert Entries(log[..n]) == Entries(log)[..n];
      WithSorted(log[..n], f);
      forall k | 0 <= k < |With(log[..n], f)| ensures With(log[..n], f)[k].expire <= log[n].e.expire {
        WithElement(log[..n], f, With(log[..n], f)[k]);
        var j :| 0 <= j < n && log[..n][j] == Record(With(log[..n], f)[k], f);
        assert Entries(log)[j].expire <= Entries(log)[n].expire;
      }
    }
  }

  /** In every run a packet is refused exactly when the same packet for the same destination waits and has not
      expired; so one that differs from all accepted ones in either is always accepted. */
  lemma RefusedIff(maxLen: nat, timeout: int, now: int, cs: seq<Call>, t: int, x: Entry)
    requires 0 < maxLen && Monotone(cs, now)
    ensures var r := ApplyAll(Run(Queue([], maxLen, timeout, []), [], []), cs);
            var waiting := With(IdealAll([], maxLen, timeout, cs), Waiting);
            && (!EnqueueF(r.q, t, x).1 <==>
                  exists e :: e in waiting && t <= e.expire && e.uid == x.uid && e.dst == x.dst)
            && ((forall e :: e in r.accepted ==> e.uid != x.uid || e.dst != x.dst) ==> EnqueueF(r.q, t, x).1)
  {
    hide Ideal, EnqueueF;
    var q := Queue([], maxLen, timeout, []);
    EmptyAgrees(q, now);
    QueueRefinesLedger(Run(q, [], []), [], now, cs);
    Conservation(maxLen, timeout, now, cs);
    var r := ApplyAll(Run(q, [], []), cs);
    EnqueueRefusesIff(r.q, t, x);
    forall e | e in r.q.items ensures e in r.accepted {
      assert e in multiset(r.q.items);
      assert e in multiset(r.accepted);
    }
  }
}
