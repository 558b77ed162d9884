/**
 Arrivals: when the guard covers the longest propagation delay of the channel, everything a receiver
 hears from one session reaches it before anything from a later session.
 */
module TdmaArrivals {
  import opened TdmaModel
  import opened TdmaSafety
  import opened TdmaResults
  import opened Channel

  lemma PropagationBounds(d: real, range: real)
    requires 0.0 <= d <= range
    ensures 0 <= Propagation(d) <= Propagation(range)
  {
  }

  /** `range` bounds every reach on the channel, the ground station's included. A frame of an earlier
      session, heard over any distance within reach, arrives before a frame of a later session heard
      over any distance at all, at the same or another receiver. */
  lemma ArrivalsSeparated(c: Config, s0: State, ls: seq<Label>, range: real, i: nat, j: nat, near: real, far: real)
    requires Covered(c) && Initial(c, s0) && Legal(c, s0, ls)
    requires Propagation(range) <= 1000 * c.guardUs
    requires var air := Exec(c, s0, ls).tr.air; i < |air| && j < |air| && air[i].session < air[j].session
    requires 0.0 <= near && 0.0 <= far <= range
    ensures var air := Exec(c, s0, ls).tr.air; air[i].at + Propagation(far) < air[j].at + Propagation(near)
  {
    hide Accounts, QueuesOk, Covered, Initial, Legal, Exec;
    Reached(c, s0, ls);
    var s := Exec(c, s0, ls);
    assert FrameOk(c, s, s.tr.air[i]) && FrameOk(c, s, s.tr.air[j]);
    WindowsApart(c, s.tr.windows, s.tr.startedAt, s.tr.air[i].session, s.tr.air[j].session);
    PropagationBounds(far, range);
  }

  /** On the channel itself: whatever the positions at the two moments, every reception of a frame of an
      earlier session comes before every reception of a frame of a later one. */
  lemma ReceptionsSeparated(c: Config, s0: State, ls: seq<Label>, ch: SimpleWirelessChannel, i: nat, j: nat,
                            first: MacLow, distFirst: (nat, nat) -> real, a: Reception,
                            second: MacLow, distSecond: (nat, nat) -> real, b: Reception)
    requires Covered(c) && Initial(c, s0) && Legal(c, s0, ls)
    requires Propagation(ch.range) <= 1000 * c.guardUs && Propagation(ch.groundRange) <= 1000 * c.guardUs
    requires var air := Exec(c, s0, ls).tr.air; i < |air| && j < |air| && air[i].session < air[j].session
    requires (forall m: nat, n: nat :: 0.0 <= distFirst(m, n)) && (forall m: nat, n: nat :: 0.0 <= distSecond(m, n))
    requires var air := Exec(c, s0, ls).tr.air;
             ch.Heard(air[i].at, first, distFirst, a) && ch.Heard(air[j].at, second, distSecond, b)
    ensures a.at < b.at
  {
    hide Covered, Initial, Legal, Exec;
    ArrivalsSeparated(c, s0, ls, ch.Reach(first), i, j,
                      distSecond(second.node, b.to.node), distFirst(first.node, a.to.node));
  }

  /** The reach of whoever reaches furthest. */
  function Furthest(ch: SimpleWirelessChannel): (d: real)
    reads ch
    ensures d == ch.range || d == ch.groundRange
    ensures ch.range <= d && ch.groundRange <= d
  {
    if ch.range < ch.groundRange then ch.groundRange else ch.range
  }

  /** The guard that SetGaurdTime derives covers every propagation within reach, the ground station's included,
      exactly when 3.3 ns for each metre of the furthest reach come to less than 1000 ns for each whole 300 m
      step of the general range, plus one. */
  lemma DerivedGuardIff(ch: SimpleWirelessChannel)
    requires 0.0 <= ch.range && 0.0 <= ch.groundRange
    ensures (forall d: real :: 0.0 <= d <= Furthest(ch) ==> Propagation(d) <= 1000 * GuardFromRange(ch.range))
       <==> 3.3 * Furthest(ch) < 1000.0 * (ch.range / 300.0).Floor as real + 1.0
  {
    WholeSteps(ch.range);
    var g := GuardFromRange(ch.range);
    forall d: real | 0.0 <= d <= Furthest(ch) ensures Propagation(d) <= Propagation(Furthest(ch)) {
      PropagationBounds(d, Furthest(ch));
    }
    assert Propagation(Furthest(ch)) <= 1000 * g <==> 3.3 * Furthest(ch) < 1000.0 * g as real + 1.0;
  }

  /** So it does from a range of at least 29.7 km on, if the ground station reaches no further. */
  lemma DerivedGuardIsEnough(ch: SimpleWirelessChannel)
    requires 29700.0 <= ch.range && 0.0 <= ch.groundRange <= ch.range
    ensures Propagation(ch.range) <= 1000 * GuardFromRange(ch.range)
    ensures Propagation(ch.groundRange) <= 1000 * GuardFromRange(ch.range)
  {
    GuardByRange(ch.range);
    PropagationBounds(ch.groundRange, ch.range);
  }
}
