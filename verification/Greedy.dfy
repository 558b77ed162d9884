/**
 Choosing the next hop (RouteOutput, Forwarding and SendPacketFromQueue in aerorp-routing-protocol.cc),
 and how fresh it is.
 */
module Greedy {
  import opened Wrappers
  import opened NeighborTable

  datatype Choice = Hop(next: Address) | Defer

  /** The target that Forwarding passes on: a vector it never assigns. */
  const DEFAULT := Vector(0.0, 0.0, 0.0)

  /** The destination when it is a neighbour, else the best neighbour, else none. */
  predicate Picks(t: Table, tti: Tti, target: Vector, own: real, dst: Address, c: Choice) {
    if dst in t then c == Hop(dst)
    else match c
      case Hop(n) => n != ZERO && IsBest(t, tti, target, own, n)
      case Defer => IsBest(t, tti, target, own, ZERO)
  }

  method Forwarding(m: NeighborTable, now: int, tti: Tti, myPosition: Vector, myVelocity: Vector, dst: Address)
    returns (c: Choice)
    modifies m
    ensures m.table == PurgeF(old(m.table), now)
    ensures Picks(m.table, tti, DEFAULT, tti(DEFAULT, myPosition, myVelocity), dst, c)
  {
    hide IsBest;
    m.Purge(now);
    var near := m.IsNeighbour(dst);
    if near {
      return Hop(dst);
    }
    PurgeTwice(old(m.table), now);
    var best := m.BestNeighbor(now, tti, DEFAULT, myPosition, myVelocity);
    return if best != ZERO then Hop(best) else Defer;
  }

  /** The unicast part of RouteOutput after the ground-station branches; `self` is the node's own address. */
  method RouteOutput(m: NeighborTable, now: int, tti: Tti, dstPos: Vector, myPos: Vector, myVel: Vector,
                     self: Address, dst: Address)
    returns (c: Choice)
    modifies m
    ensures m.table == PurgeF(old(m.table), now)
    ensures if IsBest(m.table, tti, dstPos, tti(dstPos, myPos, myVel), self) then c == Defer
            else Picks(m.table, tti, dstPos, tti(dstPos, myPos, myVel), dst, c)
  {
    hide IsBest;
    PurgeTwice(old(m.table), now);
    var best := m.BestNeighbor(now, tti, dstPos, myPos, myVel);
    if best == self {
      return Defer;
    }
    OneBest(m.table, tti, dstPos, tti(dstPos, myPos, myVel), best, self);
    var near := m.IsNeighbour(dst);
    var nextHop := dst;
    if !near {
      nextHop := m.BestNeighbor(now, tti, dstPos, myPos, myVel);
    }
    return if near || nextHop != ZERO then Hop(nextHop) else Defer;
  }

  /** The retry path: a neighbour counts before anything is purged. */
  predicate QueuePicks(t: Table, now: int, tti: Tti, target: Vector, own: real, dst: Address, c: Choice) {
    if dst in t then c == Hop(dst) else Picks(PurgeF(t, now), tti, target, own, dst, c)
  }

  /** SendPacketFromQueue asks for the neighbour before anything is purged. */
  method QueueRoute(m: NeighborTable, now: int, tti: Tti, dstPos: Vector, myPos: Vector, myVel: Vector, dst: Address)
    returns (c: Choice)
    modifies m
    ensures m.table == if dst in old(m.table) then old(m.table) else PurgeF(old(m.table), now)
    ensures QueuePicks(old(m.table), now, tti, dstPos, tti(dstPos, myPos, myVel), dst, c)
  {
    hide IsBest;
    var near := m.IsNeighbour(dst);
    if near {
      return Hop(dst);
    }
    var best := m.BestNeighbor(now, tti, dstPos, myPos, myVel);
    return if best == ZERO then Defer else Hop(best);
  }

  lemma PurgeTwice(t: Table, now: int)
    ensures PurgeF(PurgeF(t, now), now) == PurgeF(t, now)
  {
  }

  lemma OneBest(t: Table, tti: Tti, dst: Vector, own: real, a: Address, b: Address)
    requires IsBest(t, tti, dst, own, a) && a != b
    ensures !IsBest(t, tti, dst, own, b)
  {
    if IsBest(t, tti, dst, own, b) {
      BestUnique(t, tti, dst, own, a, b);
    }
  }

  // ---------------------------------------------------------------- freshness

  datatype Op = Add(t: int, id: Address, position: Vector, velocity: Vector) | Purge(t: int) | Clear

  /** The table after the operations the protocol performs on it, latest last. */
  function After(ops: seq<Op>): Table {
    if ops == [] then map[]
    else
      var t := After(ops[..|ops| - 1]);
      match ops[|ops| - 1]
      case Add(now, id, p, v) => t[id := Entry(p, v, now)]
      case Purge(now) => PurgeF(t, now)
      case Clear => map[]
  }

  function LastAdd(ops: seq<Op>, a: Address): Option<int> {
    if ops == [] then None
    else
      var op := ops[|ops| - 1];
      if op.Add? && op.id == a then Some(op.t) else LastAdd(ops[..|ops| - 1], a)
  }

  lemma {:induction false} StampIsLastAdd(ops: seq<Op>, a: Address)
    requires a in After(ops)
    ensures LastAdd(ops, a) == Some(After(ops)[a].stamp)
  {
    var op, rest := ops[|ops| - 1], ops[..|ops| - 1];
    if op.Purge? || (op.Add? && op.id != a) {
      StampIsLastAdd(rest, a);
    }
  }

  /** A hop picked from a purged table is a neighbour that was last added less than four seconds ago. */
  lemma HopIsFresh(ops: seq<Op>, now: int, tti: Tti, target: Vector, own: real, dst: Address, n: Address)
    requires Picks(PurgeF(After(ops), now), tti, target, own, dst, Hop(n)) && n != ZERO
    ensures n in After(ops) && LastAdd(ops, n).Some? && now - LIFE < LastAdd(ops, n).value
  {
    StampIsLastAdd(ops, n);
  }

  /** The retry path: the hop it chooses is as fresh as that exactly when the destination is not in the
      table, or its entry has not outlived four seconds. */
  lemma QueueHopFreshIff(ops: seq<Op>, now: int, tti: Tti, target: Vector, own: real, dst: Address, n: Address)
    requires QueuePicks(After(ops), now, tti, target, own, dst, Hop(n)) && n != ZERO
    ensures (LastAdd(ops, n).Some? && now - LIFE < LastAdd(ops, n).value)
       <==> (dst !in After(ops) || now < LIFE + After(ops)[dst].stamp)
  {
    if dst in After(ops) {
      StampIsLastAdd(ops, dst);
    } else {
      HopIsFresh(ops, now, tti, target, own, dst, n);
    }
  }

  /** The failing instance: a neighbour heard once and asked for four seconds later or more. */
  lemma QueueHopMayBeStale(dst: Address, at: int, now: int, p: Vector, v: Vector, tti: Tti, target: Vector, own: real)
    requires dst != ZERO && at + LIFE <= now
    ensures var ops := [Add(at, dst, p, v)];
            QueuePicks(After(ops), now, tti, target, own, dst, Hop(dst))
            && LastAdd(ops, dst) == Some(at) && dst !in PurgeF(After(ops), now)
  {
    var ops := [Add(at, dst, p, v)];
    assert ops[..0] == [] && After([]) == map[];
    StampIsLastAdd(ops, dst);
  }

  /** The zero address is purged at any time from four seconds on, however recently it was added. Nothing in
      this repository is shown to send a hello from that address. */
  lemma ZeroIsNeverKept(ops: seq<Op>, now: int)
    requires LIFE <= now
    ensures ZERO !in PurgeF(After(ops), now)
  {
  }

  // ---------------------------------------------------------------- direct neighbours

  /** Later operations that leave fresh neighbours in the table. */
  predicate Leaves(ops: seq<Op>, until: int) {
    forall i :: 0 <= i < |ops| ==> match ops[i]
                                   case Add(_, _, _, _) => true
                                   case Purge(t) => t < until
                                   case Clear => false
  }

  lemma {:induction false} StillThere(ops: seq<Op>, later: seq<Op>, a: Address, at: int)
    requires a != ZERO && a in After(ops) && at <= After(ops)[a].stamp && Leaves(later, at + 4_000_000_000)
    requires forall i :: 0 <= i < |later| && later[i].Add? && later[i].id == a ==> at <= later[i].t
    ensures a in After(ops + later) && at <= After(ops + later)[a].stamp
    decreases |later|
  {
    if later == [] {
      assert ops + later == ops;
    } else {
      var l := |later| - 1;
      StillThere(ops, later[..l], a, at);
      assert (ops + later)[..|ops + later| - 1] == ops + later[..l];
      assert (ops + later)[|ops + later| - 1] == later[l];
    }
  }

  /** A destination heard less than four seconds ago is the next hop itself, on all three paths, whatever else was
      heard or purged since. */
  lemma NeighbourIsNext(ops: seq<Op>, at: int, dst: Address, p: Vector, v: Vector, later: seq<Op>, now: int,
                        tti: Tti, target: Vector, own: real, c: Choice)
    requires dst != ZERO && now < at + 4_000_000_000 && Leaves(later, at + 4_000_000_000)
    requires forall i :: 0 <= i < |later| && later[i].Add? && later[i].id == dst ==> at <= later[i].t
    ensures var t := After(ops + [Add(at, dst, p, v)] + later);
            && (Picks(PurgeF(t, now), tti, target, own, dst, c) ==> c == Hop(dst))
            && (QueuePicks(t, now, tti, target, own, dst, c) ==> c == Hop(dst))
  {
    var first := ops + [Add(at, dst, p, v)];
    assert first[..|first| - 1] == ops;
    StillThere(first, later, dst, at);
    PurgeKeeps(After(first + later), now, dst);
  }

  /** A packet is deferred exactly when its destination is no neighbour and no neighbour has a rank above the
      node's own, zero being the worst. */
  lemma DefersIff(t: Table, tti: Tti, target: Vector, own: real, dst: Address, c: Choice)
    requires ZERO !in t && Picks(t, tti, target, own, dst, c)
    ensures c == Defer <==>
      dst !in t && forall k :: k in t ==>
        var s := tti(target, t[k].position, t[k].velocity); s == 0.0 || (own != 0.0 && own <= s)
  {
    hide IsBest;
    NoneIs(t, tti, target, own);
    if dst !in t && c.Hop? {
      OneBest(t, tti, target, own, c.next, ZERO);
    }
  }

  /** Else it goes to the neighbour of best rank, which ranks above the node. */
  lemma HopIsBest(t: Table, tti: Tti, target: Vector, own: real, dst: Address, n: Address)
    requires dst !in t && Picks(t, tti, target, own, dst, Hop(n))
    ensures n in t
    ensures var r := tti(target, t[n].position, t[n].velocity);
            && r != 0.0 && (own == 0.0 || r < own)
            && forall k :: k in t ==>
                 var s := tti(target, t[k].position, t[k].velocity); s == 0.0 || r < s || (r == s && n <= k)
  {
    BestIs(t, tti, target, own, n);
  }
}
