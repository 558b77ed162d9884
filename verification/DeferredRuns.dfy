/**
 No deferred packet is stranded: in every run, whatever routes are found and whenever packets arrive,
 a waiting packet has its destination on the retry list and a retry pending.
 */
module DeferredRuns {
  import opened Wrappers
  import opened RequestQueue
  import opened Deferred

  datatype Label =
    | Start(t: int)
    | Defer(t: int, x: Entry)
    | Check(found: nat -> bool)

  predicate Due(s: State, t: int) {
    s.now <= t && (s.timer.Some? ==> t <= s.timer.value)
  }

  predicate Enabled(s: State, l: Label) {
    0 < s.q.maxLen &&
    match l
    case Start(t) => Due(s, t)
    case Defer(t, _) => Due(s, t)
    case Check(_) => s.timer.Some?
  }

  function Do(s: State, l: Label): State
    requires Enabled(s, l)
  {
    match l
    case Start(t) => StartF(s.(now := t))
    case Defer(t, x) => DeferF(s.(now := t), x)
    case Check(found) => CheckQueueF(s.(now := s.timer.value), found)
  }

  predicate Legal(s: State, ls: seq<Label>)
    decreases |ls|
  {
    ls == [] || (Enabled(s, ls[0]) && Legal(Do(s, ls[0]), ls[1..]))
  }

  function Exec(s: State, ls: seq<Label>): State
    requires Legal(s, ls)
    decreases |ls|
  {
    if ls == [] then s else Exec(Do(s, ls[0]), ls[1..])
  }

  predicate NoStart(ls: seq<Label>) {
    forall i :: 0 <= i < |ls| ==> !ls[i].Start?
  }

  predicate Served(s: State) {
    && 0 < s.q.maxLen
    && (forall e :: e in s.q.items ==> e.dst in s.addresses)
    && (s.addresses != [] ==> s.timer.Some?)
    && (s.timer.Some? ==> s.now <= s.timer.value <= s.now + RETRY)
  }

  // ---------------------------------------------------------------- helpers

  lemma {:induction false} UniqueKeeps(l: seq<Address>, d: Address)
    ensures d in Unique(l) <==> d in l
    decreases |l|
  {
    if |l| > 1 {
      UniqueKeeps(l[..|l| - 1], d);
      assert l == l[..|l| - 1] + [l[|l| - 1]];
    }
  }

  lemma {:induction false} UnroutedIs(l: seq<Address>, addresses: seq<Address>, found: nat -> bool, d: Address)
    ensures d in Unrouted(l, addresses, found) <==> d in l && !Routed(addresses, |addresses|, found, d)
    decreases |l|
  {
    if l != [] {
      UnroutedIs(l[..|l| - 1], addresses, found, d);
      assert l == l[..|l| - 1] + [l[|l| - 1]];
    }
  }

  /** What is left of a retry list is a filter of it, in its order. */
  lemma {:induction false} UnroutedSplits(l: seq<Address>, more: seq<Address>, addresses: seq<Address>,
                                          found: nat -> bool)
    ensures Unrouted(l + more, addresses, found) == Unrouted(l, addresses, found) + Unrouted(more, addresses, found)
    ensures |l| == 1 ==> Unrouted(l, addresses, found)
                         == if exists i :: 0 <= i < |addresses| && addresses[i] == l[0] && found(i) then [] else l
    decreases |more|
  {
    if |l| == 1 {
      assert l == [l[0]] && l[..0] == [];
    }
    if more == [] {
      assert l + more == l;
    } else {
      var m := more[..|more| - 1];
      UnroutedSplits(l, m, addresses, found);
      assert (l + more)[..|l + more| - 1] == l + m && (l + more)[|l + more| - 1] == more[|more| - 1];
    }
  }

  lemma {:induction false} SelectOther(q: seq<Entry>, d: Address, c: Address)
    ensures Select(Select(q, Not(To(c))), To(d)) == if d == c then [] else Select(q, To(d))
    ensures Select(Select(q, To(c)), To(d)) == if d == c then Select(q, To(d)) else []
    decreases |q|
  {
    if q != [] {
      var n := |q| - 1;
      SelectOther(q[..n], d, c);
      var a, b := Select(q[..n], Not(To(c))), Select(q[..n], To(c));
      assert (a + [q[n]])[..|a|] == a && (b + [q[n]])[..|b|] == b;
    }
  }

  /** What waits and has not expired. */
  function Live(s: State): seq<Entry> {
    PurgeF(s.q, s.now).items
  }

  lemma LiveOfDrain(s: State, d: Address)
    ensures Live(DrainF(s, d)) == Select(Live(s), Not(To(d)))
  {
    PurgeIsFresh(s.q, s.now);
    var r := DrainF(s, d);
    forall e | e in r.q.items ensures s.now <= e.expire {
      Selected(Live(s), Not(To(d)), e);
    }
    PurgeIsFresh(r.q, s.now);
  }

  lemma LiveIn(s: State, e: Entry)
    ensures e in Live(s) <==> e in s.q.items && s.now <= e.expire
  {
    Selected(s.q.items, Not(Expired(s.now)), e);
  }

  // ---------------------------------------------------------------- one retry

  lemma {:induction false} TryServes(s: State, n: nat, found: nat -> bool, d: Address)
    requires n <= |s.addresses|
    ensures var r := TryF(s, n, found);
            && r.now == s.now && r.addresses == s.addresses && r.q.maxLen == s.q.maxLen
            && Select(Live(r), To(d)) == (if Routed(s.addresses, n, found, d) then [] else Select(Live(s), To(d)))
            && Select(r.sent, To(d)) == Select(s.sent, To(d))
                 + if Routed(s.addresses, n, found, d) then Select(Live(s), To(d)) else []
  {
    hide Live, Select;
    if n > 0 {
      TryServes(s, n - 1, found, d);
      var r, c := TryF(s, n - 1, found), s.addresses[n - 1];
      assert Routed(s.addresses, n, found, d)
        <==> Routed(s.addresses, n - 1, found, d) || (found(n - 1) && c == d);
      if found(n - 1) {
        LiveOfDrain(r, c);
        SelectOther(Live(r), d, c);
        SentByDrain(r, c);
        SelectSplit(r.sent, Select(Live(r), To(c)), To(d));
      }
    }
  }

  lemma SentByDrain(s: State, d: Address)
    ensures DrainF(s, d).sent == s.sent + Select(Live(s), To(d))
  {
  }

  /** What the first n attempts send: the live packets of each routed address in turn, the first time it is. */
  function Batches(s: State, n: nat, found: nat -> bool): seq<Entry>
    requires n <= |s.addresses|
  {
    if n == 0 then []
    else
      var d := s.addresses[n - 1];
      Batches(s, n - 1, found)
      + if found(n - 1) && !Routed(s.addresses, n - 1, found, d) then Select(Live(s), To(d)) else []
  }

  /** The retry sends in the order of its list. */
  lemma {:induction false} TrySends(s: State, n: nat, found: nat -> bool)
    requires n <= |s.addresses|
    ensures TryF(s, n, found).sent == s.sent + Batches(s, n, found)
  {
    hide Live, Select;
    if n > 0 {
      TrySends(s, n - 1, found);
      var r, d := TryF(s, n - 1, found), s.addresses[n - 1];
      TryServes(s, n - 1, found, d);
      if found(n - 1) {
        SentByDrain(r, d);
      }
    }
  }

  /** One retry goes through its list in order, and sends for each address that gets a route what waits alive. */
  lemma CheckSends(s: State, found: nat -> bool)
    ensures CheckQueueF(s, found).sent == s.sent + Batches(s, |s.addresses|, found)
  {
    hide Live, Select;
    var s1 := s.(timer := None);
    TrySends(s1, |s.addresses|, found);
    SameBatches(s, s1, |s.addresses|, found);
  }

  lemma {:induction false} SameBatches(s: State, r: State, n: nat, found: nat -> bool)
    requires n <= |s.addresses| && r.addresses == s.addresses && r.q == s.q && r.now == s.now
    ensures Batches(r, n, found) == Batches(s, n, found)
  {
    if n > 0 {
      SameBatches(s, r, n - 1, found);
    }
  }

  lemma {:induction false} TryKeeps(s: State, n: nat, found: nat -> bool, e: Entry)
    requires n <= |s.addresses| && e in TryF(s, n, found).q.items
    ensures e in s.q.items && !Routed(s.addresses, n, found, e.dst)
  {
    if n > 0 {
      var r, c := TryF(s, n - 1, found), s.addresses[n - 1];
      if found(n - 1) {
        Selected(Live(r), Not(To(c)), e);
        LiveIn(r, e);
      }
      TryKeeps(s, n - 1, found, e);
    }
  }

  lemma TryFrame(s: State, found: nat -> bool)
    ensures var r := TryF(s, |s.addresses|, found);
            r.now == s.now && r.q.maxLen == s.q.maxLen && r.timer == s.timer
  {
    TryFrameTo(s, |s.addresses|, found);
  }

  lemma {:induction false} TryFrameTo(s: State, n: nat, found: nat -> bool)
    requires n <= |s.addresses|
    ensures var r := TryF(s, n, found); r.now == s.now && r.q.maxLen == s.q.maxLen && r.timer == s.timer
  {
    if n > 0 {
      TryFrameTo(s, n - 1, found);
    }
  }

  /** When a route is found for `d`, exactly the unexpired packets for `d` go out, once and in order of
      arrival, none is left, and `d` leaves the list; otherwise its packets and its place stay. */
  lemma CheckServes(s: State, found: nat -> bool, d: Address)
    ensures var r := CheckQueueF(s, found);
            if Routed(s.addresses, |s.addresses|, found, d) then
              && Select(r.sent, To(d)) == Select(s.sent, To(d)) + Select(Live(s), To(d))
              && Select(Live(r), To(d)) == [] && d !in r.addresses
            else
              && Select(r.sent, To(d)) == Select(s.sent, To(d))
              && Select(Live(r), To(d)) == Select(Live(s), To(d)) && (d in r.addresses <==> d in s.addresses)
  {
    hide Select;
    TryServes(s.(timer := None), |s.addresses|, found, d);
    UnroutedIs(s.addresses, s.addresses, found, d);
  }

  // ---------------------------------------------------------------- every step keeps everyone served

  lemma CheckKeeps(s: State, found: nat -> bool)
    requires Served(s) && s.timer.Some?
    ensures Served(CheckQueueF(s.(now := s.timer.value), found))
  {
    hide TryF, Unrouted;
    var t := s.(now := s.timer.value, timer := None);
    TryFrame(t, found);
    var r := CheckQueueF(s.(now := s.timer.value), found);
    forall e | e in r.q.items ensures e.dst in r.addresses {
      TryKeeps(t, |t.addresses|, found, e);
      UnroutedIs(t.addresses, t.addresses, found, e.dst);
    }
  }

  lemma EnqueueAdds(q: Queue, now: int, x: Entry, e: Entry)
    requires 0 < q.maxLen && e in EnqueueF(q, now, x).0.items
    ensures e in q.items || e.dst == x.dst
  {
    Selected(q.items, Not(Expired(now)), e);
  }

  lemma DeferKeeps(s: State, t: int, x: Entry)
    requires Served(s) && Due(s, t)
    ensures Served(DeferF(s.(now := t), x))
  {
    hide Select;
    var s1 := s.(now := t);
    var r := DeferF(s1, x);
    forall e | e in r.q.items ensures e.dst in r.addresses {
      EnqueueAdds(PurgeF(s.q, t), t, x, e);
      Selected(s.q.items, Not(Expired(t)), e);
      UniqueKeeps([x.dst] + s.addresses, e.dst);
    }
    if PurgeF(s.q, t).items != [] {
      Selected(s.q.items, Not(Expired(t)), PurgeF(s.q, t).items[0]);
      assert s.q.items != [];
    }
  }

  /** In every state of every run after Start on an empty queue, each waiting packet has its destination
      on the retry list, and the next retry is at most 60 s away. */
  lemma {:induction false} NothingStranded(s: State, ls: seq<Label>)
    requires Served(s) && Legal(s, ls) && NoStart(ls)
    ensures var r := Exec(s, ls);
            Served(r) && (r.q.items != [] ==> r.timer.Some? && r.now <= r.timer.value <= r.now + RETRY)
    decreases |ls|
  {
    if ls != [] {
      match ls[0] {
        case Defer(t, x) => DeferKeeps(s, t, x);
        case Check(found) => CheckKeeps(s, found);
      }
      NothingStranded(Do(s, ls[0]), ls[1..]);
    } else if s.q.items != [] {
      assert s.q.items[0].dst in s.addresses;
    }
  }

  /** A node that has just started, with nothing queued. */
  function Fresh(maxLen: nat, timeout: int, now: int): State {
    StartF(State(now, Queue([], maxLen, timeout, []), [], None, []))
  }

  /** So nothing is ever stranded at a node that starts with nothing queued and starts once. */
  lemma FreshNotStranded(maxLen: nat, timeout: int, now: int, ls: seq<Label>)
    requires 0 < maxLen && Legal(Fresh(maxLen, timeout, now), ls) && NoStart(ls)
    ensures var r := Exec(Fresh(maxLen, timeout, now), ls);
            (forall e :: e in r.q.items ==> e.dst in r.addresses)
            && (r.q.items != [] ==> r.timer.Some? && r.now <= r.timer.value <= r.now + RETRY)
  {
    NothingStranded(Fresh(maxLen, timeout, now), ls);
  }

  /** So a packet still alive at the next retry goes out then if a route to its destination is found. */
  lemma RetrySends(s: State, ls: seq<Label>, e: Entry, found: nat -> bool)
    requires Served(s) && Legal(s, ls) && NoStart(ls)
    requires var r := Exec(s, ls);
             e in r.q.items && (r.timer.Some? ==> r.timer.value <= e.expire)
             && (forall i :: 0 <= i < |r.addresses| && r.addresses[i] == e.dst ==> found(i))
    ensures Enabled(Exec(s, ls), Check(found)) && e in Do(Exec(s, ls), Check(found)).sent
  {
    hide Exec, Legal, Live, Select;
    NothingStranded(s, ls);
    var r := Exec(s, ls);
    var t := r.(now := r.timer.value);
    CheckServes(t, found, e.dst);
    var i :| 0 <= i < |r.addresses| && r.addresses[i] == e.dst;
    assert Routed(t.addresses, |t.addresses|, found, e.dst);
    LiveIn(t, e);
    Selected(Live(t), To(e.dst), e);
    Selected(Do(r, Check(found)).sent, To(e.dst), e);
  }

  // ---------------------------------------------------------------- conservation

  /** Every packet the machine knows: waiting, reported, or sent. */
  function Known(s: State): multiset<Entry> {
    multiset(s.q.items) + multiset(s.q.reported) + multiset(s.sent)
  }

  /** What a step accepts from outside. */
  function Gained(s: State, l: Label): multiset<Entry>
    requires Enabled(s, l)
  {
    match l
    case Defer(t, x) =>
      if EnqueueF(PurgeF(s.q, t), t, x).1 then multiset{x.(expire := s.q.timeout + t)} else multiset{}
    case _ => multiset{}
  }

  function AllGained(s: State, ls: seq<Label>): multiset<Entry>
    requires Legal(s, ls)
    decreases |ls|
  {
    if ls == [] then multiset{} else Gained(s, ls[0]) + AllGained(Do(s, ls[0]), ls[1..])
  }

  lemma {:induction false} SelectPartition(q: seq<Entry>, p: Entry -> bool)
    ensures multiset(Select(q, p)) + multiset(Select(q, Not(p))) == multiset(q)
    decreases |q|
  {
    if q != [] {
      var n := |q| - 1;
      SelectPartition(q[..n], p);
      assert q == q[..n] + [q[n]];
    }
  }

  lemma PurgeKnown(s: State, t: int)
    ensures Known(s.(q := PurgeF(s.q, t))) == Known(s)
  {
    hide Select;
    SelectPartition(s.q.items, Expired(t));
  }

  lemma DrainKnown(s: State, d: Address)
    ensures Known(DrainF(s, d)) == Known(s)
  {
    hide Select, PurgeF;
    PurgeKnown(s, s.now);
    SelectPartition(PurgeF(s.q, s.now).items, To(d));
  }

  lemma {:induction false} TryKnown(s: State, n: nat, found: nat -> bool)
    requires n <= |s.addresses|
    ensures Known(TryF(s, n, found)) == Known(s)
  {
    hide DrainF, Known;
    if n > 0 {
      TryKnown(s, n - 1, found);
      DrainKnown(TryF(s, n - 1, found), s.addresses[n - 1]);
    }
  }

  lemma EnqueueKnown(s: State, t: int, x: Entry)
    requires 0 < s.q.maxLen
    ensures Known(s.(q := EnqueueF(s.q, t, x).0))
         == Known(s) + if EnqueueF(s.q, t, x).1 then multiset{x.(expire := s.q.timeout + t)} else multiset{}
  {
    hide PurgeF, First;
    PurgeKnown(s, t);
    var q := PurgeF(s.q, t);
    PurgeSettings(s.q, t);
    if |q.items| == q.maxLen {
      assert q.items == [q.items[0]] + q.items[1..];
    }
  }

  lemma PurgeSettings(q: Queue, t: int)
    ensures PurgeF(q, t).maxLen == q.maxLen && PurgeF(q, t).timeout == q.timeout
  {
  }

  lemma StepKnown(s: State, l: Label)
    requires Enabled(s, l)
    ensures Known(Do(s, l)) == Known(s) + Gained(s, l)
  {
    hide EnqueueF, PurgeF, TryF;
    match l
    case Start(t) =>
    case Defer(t, x) =>
      PurgeKnown(s, t);
      PurgeSettings(s.q, t);
      EnqueueKnown(s.(q := PurgeF(s.q, t)), t, x);
    case Check(found) =>
      TryKnown(s.(now := s.timer.value, timer := None), |s.addresses|, found);
  }

  /** Conservation: in every run, Start at any time included, each packet accepted for deferral is waiting,
      sent, or reported, exactly once. */
  lemma {:induction false} DeferredConserved(s: State, ls: seq<Label>)
    requires Legal(s, ls)
    ensures Known(Exec(s, ls)) == Known(s) + AllGained(s, ls)
    decreases |ls|
  {
    hide Do, Enabled, Known, Gained;
    if ls != [] {
      StepKnown(s, ls[0]);
      DeferredConserved(Do(s, ls[0]), ls[1..]);
    }
  }

  // ---------------------------------------------------------------- when retries come

  /** A deferral leaves the timer alone exactly while some packet waits that has not expired; else the first
      retry comes in half a second. */
  lemma DeferTimer(s: State, x: Entry)
    requires 0 < s.q.maxLen
    ensures (exists e :: e in s.q.items && s.now <= e.expire) ==> DeferF(s, x).timer == s.timer
    ensures !(exists e :: e in s.q.items && s.now <= e.expire) ==> DeferF(s, x).timer == Some(s.now + 500_000_000)
  {
    if e :| e in s.q.items && s.now <= e.expire {
      LiveIn(s, e);
    } else if Live(s) != [] {
      LiveIn(s, Live(s)[0]);
    }
  }

  /** A retry sets the next one for a minute later exactly when some address on the list got no route. */
  lemma CheckTimer(s: State, found: nat -> bool)
    ensures (exists i :: 0 <= i < |s.addresses| && Unserved(s, found, i)) ==>
      CheckQueueF(s, found).timer == Some(s.now + 60_000_000_000)
    ensures !(exists i :: 0 <= i < |s.addresses| && Unserved(s, found, i)) ==> CheckQueueF(s, found).timer == None
  {
    var left := Unrouted(s.addresses, s.addresses, found);
    if i :| 0 <= i < |s.addresses| && Unserved(s, found, i) {
      UnroutedIs(s.addresses, s.addresses, found, s.addresses[i]);
    } else if left != [] {
      UnroutedIs(s.addresses, s.addresses, found, left[0]);
      var i :| 0 <= i < |s.addresses| && s.addresses[i] == left[0];
      assert Unserved(s, found, i);
    }
  }

  /** No attempt for the i-th address found a route. */
  predicate Unserved(s: State, found: nat -> bool, i: nat)
    requires i < |s.addresses|
  {
    forall j :: 0 <= j < |s.addresses| && s.addresses[j] == s.addresses[i] ==> !found(j)
  }

  predicate Deferrals(ls: seq<Label>) {
    forall i :: 0 <= i < |ls| ==> ls[i].Defer?
  }

  /** Some waiting packet outlives time `t`, and expires within a timeout. */
  ghost predicate Outlasts(s: State, t: int) {
    exists e :: e in s.q.items && t <= e.expire <= s.now + s.q.timeout
  }

  lemma DeferOutlasts(s: State, l: Label, t: int)
    requires Enabled(s, l) && l.Defer? && s.timer == Some(t) && Outlasts(s, t)
    ensures Do(s, l).timer == Some(t) && Outlasts(Do(s, l), t) && Do(s, l).q.timeout == s.q.timeout
  {
    hide EnqueueF, Select, Unique;
    var e :| e in s.q.items && t <= e.expire <= s.now + s.q.timeout;
    var s1 := s.(now := l.t);
    DeferTimer(s1, l.x);
    LiveIn(s1, e);
    var q := PurgeF(s.q, l.t);
    EnqueueKeepsTimeout(q, l.t, l.x);
    if EnqueueF(q, l.t, l.x).1 {
      EnqueueAppends(q, l.t, l.x);
      var x := l.x.(expire := l.t + s.q.timeout);
      assert x in Do(s, l).q.items;
    } else {
      RefusedStays(q, l.t, l.x, e);
    }
  }

  lemma EnqueueKeepsTimeout(q: Queue, now: int, x: Entry)
    requires 0 < q.maxLen
    ensures EnqueueF(q, now, x).0.timeout == q.timeout
  {
  }

  lemma RefusedStays(q: Queue, now: int, x: Entry, e: Entry)
    requires 0 < q.maxLen && !EnqueueF(q, now, x).1 && e in q.items && now <= e.expire
    ensures e in EnqueueF(q, now, x).0.items
  {
    PurgeIs(q, now);
    Selected(q.items, LiveAt(now), e);
  }

  /** No deferral moves a pending retry while a packet outlasts it: whatever arrives, the retry comes at the
      instant first set. */
  lemma {:induction false} RetryOnTime(s: State, ls: seq<Label>, t: int)
    requires Legal(s, ls) && Deferrals(ls) && s.timer == Some(t) && Outlasts(s, t)
    ensures Exec(s, ls).timer == Some(t) && Outlasts(Exec(s, ls), t)
    decreases |ls|
  {
    hide Do, Enabled, Outlasts;
    if ls != [] {
      DeferOutlasts(s, ls[0], t);
      forall i | 0 <= i < |ls[1..]| ensures ls[1..][i].Defer? {
        assert ls[1..][i] == ls[i + 1];
      }
      RetryOnTime(Do(s, ls[0]), ls[1..], t);
    }
  }

  /** So the first retry comes half a second after the first deferral, if packets live that long. */
  lemma FirstRetryOnTime(s: State, t: int, x: Entry, ls: seq<Label>)
    requires Enabled(s, Defer(t, x)) && (forall e :: e in s.q.items ==> e.expire < t)
    requires 500_000_000 <= s.q.timeout && Legal(Do(s, Defer(t, x)), ls) && Deferrals(ls)
    ensures Exec(Do(s, Defer(t, x)), ls).timer == Some(t + 500_000_000)
  {
    hide EnqueueF, Select, Unique, Exec, Legal;
    var s1 := s.(now := t);
    DeferTimer(s1, x);
    var q := PurgeF(s.q, t);
    forall e ensures e !in q.items {
      LiveIn(s1, e);
    }
    EnqueueKeepsTimeout(q, t, x);
    EnqueueRefusesIff(q, t, x);
    EnqueueAppends(q, t, x);
    assert x.(expire := t + s.q.timeout) in Do(s, Defer(t, x)).q.items;
    RetryOnTime(Do(s, Defer(t, x)), ls, t + 500_000_000);
  }

  /** unique() changes a list exactly when some address stands next to itself. */
  lemma {:induction false} UniqueIff(l: seq<Address>)
    ensures Unique(l) == l <==> forall i :: 0 < i < |l| ==> l[i - 1] != l[i]
    ensures forall i :: 0 < i < |Unique(l)| ==> Unique(l)[i - 1] != Unique(l)[i]
    ensures |Unique(l)| <= |l| && (l != [] ==> Unique(l) != [] && Unique(l)[|Unique(l)| - 1] == l[|l| - 1])
    decreases |l|
  {
    if |l| > 1 {
      var k := l[..|l| - 1];
      UniqueIff(k);
      assert l == k + [l[|l| - 1]];
      if l[|l| - 1] != l[|l| - 2] {
        assert Unique(l) == l ==> Unique(k) == k by {
          if Unique(l) == l { assert Unique(l)[..|Unique(l)| - 1] == Unique(k); }
        }
      }
    }
  }

  // ---------------------------------------------------------------- Start

  // The repository's simulation calls Start before anything is queued; these lemmas say what depends on that.

  /** Start keeps everyone served exactly when nothing waits. */
  lemma StartIff(s: State)
    requires Served(s)
    ensures Served(StartF(s)) <==> s.q.items == []
  {
    if s.q.items != [] {
      assert s.q.items[0].dst !in StartF(s).addresses;
    }
  }

  /** Otherwise the damage lasts: the pending retry finds an empty list and schedules no other, and while
      an old packet lives, a later packet finds the queue non-empty and schedules none either. */
  lemma StartStrands(s: State, e: Entry, found: nat -> bool, t: int, x: Entry)
    requires Served(s) && e in s.q.items && s.timer.Some? && s.timer.value <= t <= e.expire
    ensures var s1 := Do(s, Start(s.now));
            Enabled(s1, Check(found)) &&
            var s2 := Do(s1, Check(found));
            Enabled(s2, Defer(t, x)) && s2.timer == None && e in s2.q.items &&
            var s3 := Do(s2, Defer(t, x));
            s3.timer == None && s3.q.items != [] && s3.sent == s.sent
  {
    var s1 := Do(s, Start(s.now));
    var s2 := Do(s1, Check(found));
    assert s2.q == s.q && s2.sent == s.sent;
    var s3 := s2.(now := t);
    LiveIn(s3, e);
    PurgeIsFresh(s3.q, t);
    PurgeIsFresh(PurgeF(s3.q, t), t);
  }
}
