/**
 The neighbour table (aerorp-ntable.cc): entries that live four seconds, and the choice of the best
 neighbour by time to intercept, where a time of exactly zero means never.
 */
module NeighborTable {
  import opened Wrappers

  type Address = nat

  const ZERO: Address := 0

  const LIFE: nat := 4_000_000_000

  datatype Vector = Vector(x: real, y: real, z: real)

  datatype Entry = Entry(position: Vector, velocity: Vector, stamp: int)

  type Table = map<Address, Entry>

  /** Time to intercept of a node at a position with a velocity, for a destination position. */
  type Tti = (Vector, Vector, Vector) -> real

  // ---------------------------------------------------------------- time to intercept

  /** The branches of CalculateTimeToIntercept for distance dd, relative speed dv and range. */
  function TimeToIntercept(dd: real, dv: real, range: real): real
    requires dv != 0.0
  {
    if dv < 0.0 && dd >= range then 0.0
    else if dd < range - 3000.0 && dv < 0.0 then -1.0 * ((dd - range) / dv)
    else (dd - range) / dv
  }

  lemma QuotientSign(a: real, b: real)
    requires b != 0.0
    ensures a / b == 0.0 <==> a == 0.0
    ensures a / b > 0.0 <==> (a > 0.0 && b > 0.0) || (a < 0.0 && b < 0.0)
  {
    var q := a / b;
    assert q * b == a;
    if a > 0.0 && b > 0.0 {
      assert q > 0.0;
    } else if a < 0.0 && b < 0.0 {
      assert q > 0.0;
    } else if a == 0.0 {
    } else {
      assert q < 0.0;
    }
  }

  /** Never (zero): exactly on the edge of the range, or outside and receding. Below zero, which ranks
      best: inside and approaching, or more than 3000 inside. */
  lemma WhenNever(dd: real, dv: real, range: real)
    requires dv != 0.0
    ensures TimeToIntercept(dd, dv, range) == 0.0 <==> dd == range || (dd > range && dv < 0.0)
    ensures TimeToIntercept(dd, dv, range) < 0.0
       <==> (dd < range && dv > 0.0) || (dd < range - 3000.0 && dv < 0.0)
  {
    QuotientSign(dd - range, dv);
  }

  // ---------------------------------------------------------------- ranks

  /** Smaller is better and zero is worst. */
  predicate Better(a: real, b: real) {
    a != 0.0 && (b == 0.0 || a < b)
  }

  lemma BetterIsOrder(a: real, b: real, c: real)
    ensures !Better(a, a)
    ensures Better(a, b) && Better(b, c) ==> Better(a, c)
    ensures !Better(a, b) && !Better(b, c) ==> !Better(a, c)
  {
  }

  /** The two tests as they are written: in the loop, and after it. */
  predicate LoopTest(best: real, current: real) {
    (best > current && current != 0.0) || (best == 0.0 && current != 0.0)
  }

  predicate ClosingTest(initial: real, best: real) {
    initial > best || (initial == 0.0 && best != 0.0)
  }

  // ---------------------------------------------------------------- what each call does

  /** The entry of the zero address counts as stamped at time zero. */
  function UpdateTime(t: Table, a: Address): int
    requires a in t
  {
    if a == ZERO then 0 else t[a].stamp
  }

  function PurgeF(t: Table, now: int): (r: Table)
    ensures forall a :: a in r <==> a in t && now < LIFE + UpdateTime(t, a)
    ensures forall a :: a in r ==> r[a] == t[a]
  {
    map a | a in t && !(LIFE + UpdateTime(t, a) <= now) :: t[a]
  }

  function Rank(t: Table, tti: Tti, dst: Vector, a: Address): real
    requires a in t
  {
    tti(dst, t[a].position, t[a].velocity)
  }

  /** `a` is the least address of those with the best rank among the entries below `upto`, and that rank
      is better than `own`; without one better than `own` it is None. */
  predicate Chosen(t: Table, tti: Tti, dst: Vector, own: real, upto: set<Address>, best: Option<Address>)
    requires upto <= t.Keys && (best.Some? ==> best.value in t)
  {
    match best
    case None => forall k :: k in upto ==> !Better(Rank(t, tti, dst, k), own)
    case Some(a) =>
      && a in upto && Better(Rank(t, tti, dst, a), own)
      && (forall k :: k in upto ==> !Better(Rank(t, tti, dst, k), Rank(t, tti, dst, a)))
      && (forall k :: k in upto && k < a ==> Better(Rank(t, tti, dst, a), Rank(t, tti, dst, k)))
  }

  /** BestNeighbor's answer on a purged table; the zero address stands for none. */
  predicate IsBest(t: Table, tti: Tti, dst: Vector, own: real, best: Address) {
    || (best in t && Chosen(t, tti, dst, own, t.Keys, Some(best)))
    || (best == ZERO && Chosen(t, tti, dst, own, t.Keys, None))
  }

  /** There is only one such answer, and it is none exactly when no neighbour is better than the node. */
  lemma BestUnique(t: Table, tti: Tti, dst: Vector, own: real, a: Address, b: Address)
    requires IsBest(t, tti, dst, own, a) && IsBest(t, tti, dst, own, b)
    ensures a == b
    ensures ZERO !in t ==> (a == ZERO <==> forall k :: k in t ==> !Better(Rank(t, tti, dst, k), own))
  {
    if a in t && b in t && a < b {
      NotBoth(t, tti, dst, own, a, b);
    }
    if a in t && b in t && b < a {
      NotBoth(t, tti, dst, own, b, a);
    }
  }

  lemma NotBoth(t: Table, tti: Tti, dst: Vector, own: real, a: Address, b: Address)
    requires a in t && b in t && a < b
    ensures !(Chosen(t, tti, dst, own, t.Keys, Some(a)) && Chosen(t, tti, dst, own, t.Keys, Some(b)))
  {
    hide Better;
    var beats := Better(Rank(t, tti, dst, b), Rank(t, tti, dst, a));
    assert Chosen(t, tti, dst, own, t.Keys, Some(a)) ==> !beats;
    assert Chosen(t, tti, dst, own, t.Keys, Some(b)) ==> beats;
  }

  lemma LeastExists(s: set<Address>) returns (a: Address)
    requires s != {}
    ensures a in s && forall k :: k in s ==> a <= k
  {
    a :| a in s;
    if m :| m in s && m < a {
      var rest := set k | k in s && k < a;
      assert m in rest && rest <= s && a !in rest;
      var b := LeastExists(rest);
      assert forall k :: k in s && k < a ==> k in rest;
      a := b;
    }
  }

  class NeighborTable {
    var table: Table

    constructor ()
      ensures table == map[]
    {
      table := map[];
    }

    method GetEntryUpdateTime(id: Address) returns (t: int)
      requires id == ZERO || id in table
      ensures t == if id == ZERO then 0 else table[id].stamp
    {
      if id == ZERO {
        return 0;
      }
      return table[id].stamp;
    }

    method AddEntry(now: int, id: Address, position: Vector, velocity: Vector)
      modifies this
      ensures table == old(table)[id := Entry(position, velocity, now)]
    {
      if id in table {
        table := table - {id};
      }
      table := table[id := Entry(position, velocity, now)];
    }

    /** Keeps the stamp of an entry it overwrites. */
    method UpdateEntry(now: int, id: Address, position: Vector, velocity: Vector)
      modifies this
      ensures var stamp := if id in old(table) then old(table)[id].stamp else now;
              table == old(table)[id := Entry(position, velocity, stamp)]
    {
      if id in table {
        table := table[id := table[id].(position := position, velocity := velocity)];
      } else {
        AddEntry(now, id, position, velocity);
      }
    }

    method DeleteEntry(id: Address)
      modifies this
      ensures table == old(table) - {id}
    {
      table := table - {id};
    }

    method IsNeighbour(id: Address) returns (r: bool)
      ensures r == (id in table)
    {
      r := id in table;
    }

    /** The first pass of Purge: the addresses of expired entries. */
    method Outdated(now: int) returns (toErase: seq<Address>)
      ensures forall a :: a in toErase <==> a in table && LIFE + UpdateTime(table, a) <= now
    {
      toErase := [];
      var left := table.Keys;
      ghost var seen := {};
      while left != {}
        invariant seen + left == table.Keys && seen !! left
        invariant forall a :: a in toErase <==> a in seen && LIFE + UpdateTime(table, a) <= now
        decreases |left|
      {
        var i := Next(left);
        var updated := GetEntryUpdateTime(i);
        if LIFE + updated <= now {
          toErase := [i] + toErase;
        }
        left, seen := left - {i}, seen + {i};
      }
    }

    /** One pass collects the expired addresses, a second one erases them. */
    method Purge(now: int)
      modifies this
      ensures table == PurgeF(old(table), now)
    {
      if table == map[] {
        return;
      }
      var toErase := Outdated(now);
      ghost var was := table;
      var k := 0;
      while k < |toErase|
        invariant 0 <= k <= |toErase|
        invariant forall a :: a in table <==> a in was && a !in toErase[..k]
        invariant forall a :: a in table ==> table[a] == was[a]
      {
        table := table - {toErase[k]};
        assert toErase[..k + 1] == toErase[..k] + [toErase[k]];
        k := k + 1;
      }
      assert toErase[..k] == toErase;
    }

    /** The map's iterator: the least key not visited yet. */
    static method Next(left: set<Address>) returns (i: Address)
      requires left != {}
      ensures i in left && forall k :: k in left ==> i <= k
    {
      ghost var least := LeastExists(left);
      i :| i in left && forall k :: k in left ==> i <= k;
    }

    method BestNeighbor(now: int, tti: Tti, dstPosition: Vector, nodePosition: Vector, nodeVelocity: Vector)
      returns (best: Address)
      modifies this
      ensures table == PurgeF(old(table), now)
      ensures IsBest(table, tti, dstPosition, tti(dstPosition, nodePosition, nodeVelocity), best)
    {
      hide Chosen, PurgeF, Better, IsBest;
      Purge(now);
      var initialTTI := tti(dstPosition, nodePosition, nodeVelocity);
      if table == map[] {
        NoneChosen(table, tti, dstPosition, initialTTI);
        Concludes(table, tti, dstPosition, initialTTI, None);
        return ZERO;
      }
      var bestFoundID, bestFoundTTI := Scan(table, tti, dstPosition, initialTTI);
      TestsAreBetter(initialTTI, bestFoundTTI, initialTTI);
      BetterIsOrder(initialTTI, bestFoundTTI, initialTTI);
      Concludes(table, tti, dstPosition, initialTTI,
                if Better(bestFoundTTI, initialTTI) then Some(bestFoundID) else None);
      if initialTTI > bestFoundTTI || (initialTTI == 0.0 && bestFoundTTI != 0.0) {
        return bestFoundID;
      } else {
        return ZERO;
      }
    }

    /** The loop over the map: it ends with the best neighbour and its rank, or has never updated. */
    static method Scan(t: Table, tti: Tti, dstPosition: Vector, initialTTI: real)
      returns (bestFoundID: Address, bestFoundTTI: real)
      requires t != map[]
      ensures if Better(bestFoundTTI, initialTTI) then
                && bestFoundID in t && bestFoundTTI == Rank(t, tti, dstPosition, bestFoundID)
                && Chosen(t, tti, dstPosition, initialTTI, t.Keys, Some(bestFoundID))
              else bestFoundTTI == initialTTI && Chosen(t, tti, dstPosition, initialTTI, t.Keys, None)
    {
      hide Chosen, Better;
      NoneChosen(t, tti, dstPosition, initialTTI);
      ghost var found: Option<Address>;
      bestFoundID := Next(t.Keys);
      bestFoundTTI := initialTTI;
      found := None;
      var left := t.Keys;
      ghost var seen := {};
      while left != {}
        invariant seen + left == t.Keys && seen !! left
        invariant forall k, m :: k in seen && m in left ==> k < m
        invariant found.Some? ==> found.value in t && bestFoundID == found.value
        invariant bestFoundTTI == if found.Some? then Rank(t, tti, dstPosition, found.value) else initialTTI
        invariant Chosen(t, tti, dstPosition, initialTTI, seen, found)
        decreases |left|
      {
        var i := Next(left);
        var currentTTI := tti(dstPosition, t[i].position, t[i].velocity);
        TestsAreBetter(initialTTI, bestFoundTTI, currentTTI);
        ChosenStep(t, tti, dstPosition, initialTTI, seen, found, i);
        if (bestFoundTTI > currentTTI && currentTTI != 0.0) || (bestFoundTTI == 0.0 && currentTTI != 0.0) {
          bestFoundID := i;
          bestFoundTTI := currentTTI;
          found := Some(i);
        }
        left, seen := left - {i}, seen + {i};
      }
      assert seen == t.Keys;
      Concludes(t, tti, dstPosition, initialTTI, found);
    }
  }

  lemma NoneChosen(t: Table, tti: Tti, dst: Vector, own: real)
    ensures Chosen(t, tti, dst, own, {}, None)
  {
  }

  lemma Concludes(t: Table, tti: Tti, dst: Vector, own: real, found: Option<Address>)
    requires (found.Some? ==> found.value in t) && Chosen(t, tti, dst, own, t.Keys, found)
    ensures IsBest(t, tti, dst, own, if found.Some? then found.value else ZERO)
    ensures found.Some? ==> Better(Rank(t, tti, dst, found.value), own)
    ensures !Better(own, own)
  {
  }

  /** The iterator reaches `i` after everything smaller: it becomes the best exactly when it beats the best. */
  lemma ChosenStep(t: Table, tti: Tti, dst: Vector, own: real, seen: set<Address>, found: Option<Address>, i: Address)
    requires seen <= t.Keys && (found.Some? ==> found.value in t) && Chosen(t, tti, dst, own, seen, found)
    requires i in t && forall k :: k in seen ==> k < i
    ensures var best := if found.Some? then Rank(t, tti, dst, found.value) else own;
            Chosen(t, tti, dst, own, seen + {i}, if Better(Rank(t, tti, dst, i), best) then Some(i) else found)
  {
  }

  /** The loop test is Better, so the closing test holds exactly when the loop has updated: the initial
      id is never returned. */
  lemma TestsAreBetter(initial: real, best: real, current: real)
    ensures LoopTest(best, current) <==> Better(current, best)
    ensures ClosingTest(initial, best) && (best == initial || Better(best, initial)) <==> Better(best, initial)
  {
  }

  // ---------------------------------------------------------------- in numbers

  /** What the time is: after it the node is at the edge of the range, at constant speed. Deep inside a receding
      node has the time to the edge negated, outside it has zero. */
  lemma InterceptIs(dd: real, dv: real, range: real)
    requires dv != 0.0
    ensures var t := TimeToIntercept(dd, dv, range);
            if dv < 0.0 && range <= dd then t == 0.0
            else if dv < 0.0 && dd < range - 3000.0 then dd + dv * t == range && t < 0.0
            else dd - dv * t == range
  {
    var q := (dd - range) / dv;
    assert q * dv == dd - range;
    WhenNever(dd, dv, range);
  }

  /** The best neighbour ranks above the node and above every other one; zero is the worst rank, and the least
      address wins a tie. */
  lemma BestIs(t: Table, tti: Tti, dst: Vector, own: real, best: Address)
    requires IsBest(t, tti, dst, own, best) && best != ZERO
    ensures best in t
    ensures var r := tti(dst, t[best].position, t[best].velocity);
            && r != 0.0 && (own == 0.0 || r < own)
            && forall k :: k in t ==>
                 var s := tti(dst, t[k].position, t[k].velocity); s == 0.0 || r < s || (r == s && best <= k)
  {
    forall k | k in t
      ensures var r, s := Rank(t, tti, dst, best), Rank(t, tti, dst, k); s == 0.0 || r < s || (r == s && best <= k)
    {
      assert !Better(Rank(t, tti, dst, k), Rank(t, tti, dst, best));
    }
  }

  /** Without the zero address in the table: nobody is chosen exactly when nobody has a rank above the node. */
  lemma NoneIs(t: Table, tti: Tti, dst: Vector, own: real)
    requires ZERO !in t
    ensures IsBest(t, tti, dst, own, ZERO) <==>
      forall k :: k in t ==>
        var s := tti(dst, t[k].position, t[k].velocity); s == 0.0 || (own != 0.0 && own <= s)
  {
    forall k | k in t
      ensures !Better(Rank(t, tti, dst, k), own) <==>
        var s := tti(dst, t[k].position, t[k].velocity); s == 0.0 || (own != 0.0 && own <= s)
    {
    }
  }

  /** A purge keeps what was stamped less than four seconds ago. */
  lemma PurgeKeeps(t: Table, now: int, a: Address)
    ensures a in PurgeF(t, now) <==> a in t && now < 4_000_000_000 + (if a == 0 then 0 else t[a].stamp)
  {
  }
}
