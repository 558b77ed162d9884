/**
 The broadcast channel (simple-wireless-channel.cc) and the separation of arrivals.
 */
module Channel {
  /** A low MAC on the channel: its device and the node the device sits on. */
  datatype MacLow = MacLow(device: nat, node: nat)

  /** A scheduled reception. */
  datatype Reception = Reception(at: int, to: MacLow)

  /** Nanoseconds to cover `d` metres: 3.3 ns per metre, truncated. */
  function Propagation(d: real): int {
    (3.3 * d).Floor
  }

  /** Guard microseconds that SetGaurdTime derives from a channel's range. */
  function GuardFromRange(range: real): (us: nat)
    requires 0.0 <= range
    ensures 300.0 * us as real <= range < 300.0 * (us + 1) as real
  {
    (range / 300000000.0 * 1000000.0).Floor
  }

  class SimpleWirelessChannel {
    var range: real
    var groundRange: real
    var groundId: int
    var macLows: seq<MacLow>

    constructor (range: real, groundRange: real, groundId: int)
      ensures this.range == range && this.groundRange == groundRange && this.groundId == groundId && macLows == []
    {
      this.range, this.groundRange, this.groundId, macLows := range, groundRange, groundId, [];
    }

    method Add(m: MacLow)
      modifies this`macLows
      ensures macLows == old(macLows) + [m]
    {
      macLows := macLows + [m];
    }

    method GetMaxRange() returns (r: real)
      ensures r == range
    {
      r := range;
    }

    /** Reach of a sender; the ground station, named by node id as a 32-bit value, has its own. */
    function Reach(sender: MacLow): real
      reads this
    {
      if sender.node == groundId % 0x1_0000_0000 then groundRange else range
    }

    predicate Hears(sender: MacLow, m: MacLow, dist: (nat, nat) -> real)
      reads this
    {
      m.device != sender.device && dist(sender.node, m.node) <= Reach(sender)
    }

    /** `r` is a reception of a frame that `sender` sent at `now`. */
    predicate Heard(now: int, sender: MacLow, dist: (nat, nat) -> real, r: Reception)
      reads this
    {
      r.to in macLows && Hears(sender, r.to, dist) && r.at == now + Propagation(dist(sender.node, r.to.node))
    }

    /** Every other device within reach hears the frame once per attachment, after its own delay. */
    method Send(now: int, sender: MacLow, dist: (nat, nat) -> real) returns (rs: seq<Reception>)
      ensures forall r :: r in rs ==> Heard(now, sender, dist, r)
      ensures forall m :: m in macLows && Hears(sender, m, dist) ==>
        multiset(rs)[Reception(now + Propagation(dist(sender.node, m.node)), m)] == multiset(macLows)[m]
    {
      rs := [];
      var i := 0;
      while i < |macLows|
        invariant 0 <= i <= |macLows|
        invariant forall r :: r in rs ==> Heard(now, sender, dist, r)
        invariant forall m :: Hears(sender, m, dist) ==>
          multiset(rs)[Reception(now + Propagation(dist(sender.node, m.node)), m)] == multiset(macLows[..i])[m]
      {
        var tmp := macLows[i];
        assert macLows[..i + 1] == macLows[..i] + [tmp];
        if tmp.device != sender.device {
          var reach := if sender.node == groundId % 0x1_0000_0000 then groundRange else range;
          var distance := dist(sender.node, tmp.node);
          if distance <= reach {
            rs := rs + [Reception(now + Propagation(distance), tmp)];
          }
        }
        i := i + 1;
      }
      assert macLows[..i] == macLows;
    }
  }

  /** The guard derived from the range covers the longest propagation exactly when what is left of the
      range after its whole 300 m steps takes less than 10 ns per step plus one. */
  lemma GuardCoversIff(range: real)
    requires 0.0 <= range
    ensures var steps := (range / 300.0).Floor;
            Propagation(range) <= 1000 * GuardFromRange(range) <==>
            3.3 * (range - 300.0 * steps as real) < 10.0 * steps as real + 1.0
  {
    WholeSteps(range);
  }

  lemma WholeSteps(range: real)
    requires 0.0 <= range
    ensures GuardFromRange(range) == (range / 300.0).Floor
  {
    assert range / 300000000.0 * 1000000.0 == range / 300.0;
  }

  /** So every range of at least 29.7 km is covered, and the default 250 m is not. */
  lemma GuardByRange(range: real)
    requires 0.0 <= range
    ensures 29700.0 <= range ==> Propagation(range) <= 1000 * GuardFromRange(range)
    ensures range == 250.0 ==> GuardFromRange(range) == 0 && Propagation(range) == 825
  {
    GuardCoversIff(range);
    WholeSteps(range);
  }

  /** Who hears whom: an airborne sender reaches the general range and the ground station its own. */
  lemma HearsIff(ch: SimpleWirelessChannel, sender: MacLow, m: MacLow, dist: (nat, nat) -> real)
    requires 0 <= ch.groundId < 0x1_0000_0000
    ensures sender.node != ch.groundId ==>
      (ch.Hears(sender, m, dist) <==> m.device != sender.device && dist(sender.node, m.node) <= ch.range)
    ensures sender.node == ch.groundId ==>
      (ch.Hears(sender, m, dist) <==> m.device != sender.device && dist(sender.node, m.node) <= ch.groundRange)
  {
  }

  /** So two nodes at the same distance both ways hear each other or neither hears, unless one of them is the
      ground station and the distance lies between the two ranges. */
  lemma OneWayIff(ch: SimpleWirelessChannel, a: MacLow, b: MacLow, dist: (nat, nat) -> real)
    requires 0 <= ch.groundId < 0x1_0000_0000 && a.device != b.device && a.node != b.node
    requires dist(a.node, b.node) == dist(b.node, a.node)
    ensures var d := dist(a.node, b.node);
            (ch.Hears(a, b, dist) != ch.Hears(b, a, dist)) <==>
              (a.node == ch.groundId || b.node == ch.groundId)
              && (ch.range < d <= ch.groundRange || ch.groundRange < d <= ch.range)
  {
    HearsIff(ch, a, b, dist);
    HearsIff(ch, b, a, dist);
  }
}
