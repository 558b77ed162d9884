/**
 When greedy forwarding loops. A node ranks itself on its exact position and velocity and its neighbours on
 what it heard from them (aerorp-ntable.cc:407, 421), so everything depends on whether a node can be heard
 as better than it is.
 */
module GreedyLoops {
  import opened Wrappers
  import opened NeighborTable
  import opened Greedy
  import Hello

  /** A snapshot: where every node is, and every node's purged table. */
  datatype Network = Network(nodes: map<Address, Entry>, tables: map<Address, Table>)

  /** Which table entries a node in some state can have caused. */
  type Hearing = (Entry, Entry) -> bool

  /** Tables list nodes, by entries that these have caused. */
  ghost predicate Fed(net: Network, heard: Hearing) {
    && net.tables.Keys == net.nodes.Keys
    && forall n, k :: n in net.tables && k in net.tables[n] ==> k in net.nodes && heard(net.nodes[k], net.tables[n][k])
  }

  function RankOf(tti: Tti, target: Vector, e: Entry): real {
    tti(target, e.position, e.velocity)
  }

  function NodeRank(net: Network, tti: Tti, target: Vector, n: Address): real
    requires n in net.nodes
  {
    RankOf(tti, target, net.nodes[n])
  }

  /** No table ranks a node better than that node ranks itself. */
  predicate Modest(net: Network, tti: Tti, target: Vector) {
    && net.tables.Keys == net.nodes.Keys
    && forall n, k :: n in net.tables && k in net.tables[n] ==>
         k in net.nodes && !Better(Rank(net.tables[n], tti, target, k), NodeRank(net, tti, target, k))
  }

  /** Some node can be heard as better than it ranks itself. */
  ghost predicate Boasts(tti: Tti, target: Vector, heard: Hearing) {
    exists s, e :: heard(s, e) && Better(RankOf(tti, target, e), RankOf(tti, target, s))
  }

  lemma ModestUnless(net: Network, tti: Tti, target: Vector, heard: Hearing)
    requires Fed(net, heard) && !Boasts(tti, target, heard)
    ensures Modest(net, tti, target)
  {
    hide Better;
    forall n, k | n in net.tables && k in net.tables[n]
      ensures k in net.nodes && !Better(Rank(net.tables[n], tti, target, k), NodeRank(net, tti, target, k))
    {
      assert heard(net.nodes[k], net.tables[n][k]);
    }
  }

  // ---------------------------------------------------------------- chains

  /** Node `n` forwards to `c`. */
  predicate Forwards(net: Network, tti: Tti, target: Vector, dst: Address, n: Address, c: Choice) {
    n in net.tables && n in net.nodes && Picks(net.tables[n], tti, target, NodeRank(net, tti, target, n), dst, c)
  }

  /** Each node but the last sends to the next one as its best neighbour. */
  predicate Chain(net: Network, tti: Tti, target: Vector, dst: Address, path: seq<Address>) {
    && (forall i :: 0 <= i < |path| ==> path[i] in net.nodes && path[i] in net.tables)
    && (forall i :: 0 <= i < |path| - 1 ==>
          dst !in net.tables[path[i]] && Forwards(net, tti, target, dst, path[i], Hop(path[i + 1])))
  }

  predicate Repeats(path: seq<Address>) {
    exists i, j :: 0 <= i < j < |path| && path[i] == path[j]
  }

  lemma HopIsBetter(net: Network, tti: Tti, target: Vector, dst: Address, n: Address, h: Address)
    requires Modest(net, tti, target)
    requires n in net.nodes && dst !in net.tables[n] && Forwards(net, tti, target, dst, n, Hop(h))
    ensures h in net.nodes && h in net.tables && h in net.tables[n]
    ensures Better(Rank(net.tables[n], tti, target, h), NodeRank(net, tti, target, n))
    ensures Better(NodeRank(net, tti, target, h), NodeRank(net, tti, target, n))
  {
    assert h in net.tables[n];
  }

  lemma {:induction false} RankFalls(net: Network, tti: Tti, target: Vector, dst: Address, path: seq<Address>,
                                     i: nat, j: nat)
    requires Modest(net, tti, target) && Chain(net, tti, target, dst, path) && i < j < |path|
    ensures Better(NodeRank(net, tti, target, path[j]), NodeRank(net, tti, target, path[i]))
    decreases j
  {
    hide Picks, Modest, IsBest;
    assert path[j - 1] in net.nodes;
    HopIsBetter(net, tti, target, dst, path[j - 1], path[j]);
    if i < j - 1 {
      RankFalls(net, tti, target, dst, path, i, j - 1);
    }
  }

  lemma {:induction false} DistinctFits(path: seq<Address>, s: set<Address>)
    requires (forall i :: 0 <= i < |path| ==> path[i] in s) && !Repeats(path)
    ensures |path| <= |s|
    decreases |path|
  {
    if path != [] {
      var n := |path| - 1;
      DistinctFits(path[..n], s - {path[n]});
    }
  }

  /** While no table flatters a node, forwarding for one target is loop-free: the rank falls strictly along
      every chain of best neighbours, so no node repeats and the chain is no longer than the number of nodes.
      Entries may be out of date, or wrong in any other way that makes nodes look worse. */
  lemma LoopFree(net: Network, tti: Tti, target: Vector, dst: Address, path: seq<Address>)
    requires Modest(net, tti, target) && Chain(net, tti, target, dst, path)
    ensures forall i, j :: 0 <= i < j < |path| ==>
      Better(NodeRank(net, tti, target, path[j]), NodeRank(net, tti, target, path[i]))
    ensures !Repeats(path) && |path| <= |net.nodes.Keys|
  {
    hide Picks, IsBest;
    forall i, j | 0 <= i < j < |path|
      ensures Better(NodeRank(net, tti, target, path[j]), NodeRank(net, tti, target, path[i])) && path[i] != path[j]
    {
      RankFalls(net, tti, target, dst, path, i, j);
    }
    DistinctFits(path, net.nodes.Keys);
  }

  // ---------------------------------------------------------------- every packet gets somewhere

  lemma GreatestExists(s: set<Address>) returns (a: Address)
    requires s != {}
    ensures a in s && forall k :: k in s ==> k <= a
    decreases |s|
  {
    a :| a in s;
    var rest := s - {a};
    if rest != {} {
      var b := GreatestExists(rest);
      assert forall k :: k in s ==> k == a || k in rest;
      if a < b {
        a := b;
      }
    }
  }

  lemma {:induction false} ChosenExists(t: Table, tti: Tti, dst: Vector, own: real, seen: set<Address>)
    returns (found: Option<Address>)
    requires seen <= t.Keys
    ensures (found.Some? ==> found.value in t) && Chosen(t, tti, dst, own, seen, found)
    decreases |seen|
  {
    hide Better, Rank;
    if seen == {} {
      NoneChosen(t, tti, dst, own);
      found := None;
    } else {
      var i := GreatestExists(seen);
      var f := ChosenExists(t, tti, dst, own, seen - {i});
      ChosenStep(t, tti, dst, own, seen - {i}, f, i);
      assert seen - {i} + {i} == seen;
      found := if Better(Rank(t, tti, dst, i), if f.Some? then Rank(t, tti, dst, f.value) else own) then Some(i) else f;
    }
  }

  /** Every node makes a choice. */
  lemma Decides(net: Network, tti: Tti, target: Vector, dst: Address, n: Address) returns (c: Choice)
    requires net.tables.Keys == net.nodes.Keys && n in net.nodes
    ensures Forwards(net, tti, target, dst, n, c)
  {
    var t, own := net.tables[n], NodeRank(net, tti, target, n);
    if dst in t {
      c := Hop(dst);
    } else {
      var found := ChosenExists(t, tti, target, own, t.Keys);
      Concludes(t, tti, target, own, found);
      c := if found.Some? && found.value != ZERO then Hop(found.value) else Defer;
    }
  }

  ghost predicate Arrives(net: Network, tti: Tti, target: Vector, dst: Address, n: Address) {
    n in net.tables && (dst in net.tables[n] || Forwards(net, tti, target, dst, n, Defer))
  }

  /** The chain goes on to a node that has the destination as a neighbour, or that defers. */
  ghost predicate Ends(net: Network, tti: Tti, target: Vector, dst: Address, path: seq<Address>) {
    exists route :: path <= route && Finished(net, tti, target, dst, route)
  }

  ghost predicate Finished(net: Network, tti: Tti, target: Vector, dst: Address, route: seq<Address>) {
    route != [] && Chain(net, tti, target, dst, route) && Arrives(net, tti, target, dst, route[|route| - 1])
  }

  /** While no table flatters a node, every chain gets there. */
  lemma {:induction false} RouteEnds(net: Network, tti: Tti, target: Vector, dst: Address, path: seq<Address>)
    requires Modest(net, tti, target) && path != [] && Chain(net, tti, target, dst, path)
    ensures Ends(net, tti, target, dst, path)
    decreases |net.nodes.Keys| - |path|
  {
    hide Picks, IsBest, Better, Repeats;
    var last := path[|path| - 1];
    LoopFree(net, tti, target, dst, path);
    var c := Decides(net, tti, target, dst, last);
    if dst in net.tables[last] || c == Defer {
      assert path <= path && Finished(net, tti, target, dst, path);
    } else {
      HopIsBetter(net, tti, target, dst, last, c.next);
      var longer := path + [c.next];
      LoopFree(net, tti, target, dst, longer);
      RouteEnds(net, tti, target, dst, longer);
      var route :| longer <= route && Finished(net, tti, target, dst, route);
      assert path <= route;
    }
  }

  // ---------------------------------------------------------------- the exact condition

  /** Two nodes in one state that hear each other. */
  function Twins(s: Entry, e: Entry): Network {
    Network(map[1 := s, 2 := s], map[1 := map[2 := e], 2 := map[1 := e]])
  }

  /** 1, 2, 1, 2 and so on, `n` nodes. */
  function Circle(n: nat): (path: seq<Address>)
    ensures |path| == n && forall i :: 0 <= i < n ==> path[i] == 1 + i % 2
  {
    seq(n, i => 1 + i % 2)
  }

  lemma Turns(i: nat)
    ensures 1 + (i + 1) % 2 == 3 - (1 + i % 2)
  {
  }

  lemma OnlyNeighbour(t: Table, tti: Tti, target: Vector, own: real, a: Address)
    requires t.Keys == {a} && Better(Rank(t, tti, target, a), own)
    ensures IsBest(t, tti, target, own, a)
  {
  }

  lemma Passes(tti: Tti, target: Vector, dst: Address, s: Entry, e: Entry, a: Address)
    requires Better(RankOf(tti, target, e), RankOf(tti, target, s)) && 2 < dst && 1 <= a <= 2
    ensures var net := Twins(s, e);
            dst !in net.tables[a] && Forwards(net, tti, target, dst, a, Hop(3 - a))
            && !Arrives(net, tti, target, dst, a)
  {
    hide IsBest, Better;
    var t, own := Twins(s, e).tables[a], RankOf(tti, target, s);
    assert t.Keys == {3 - a} && Rank(t, tti, target, 3 - a) == RankOf(tti, target, e);
    OnlyNeighbour(t, tti, target, own, 3 - a);
    OneBest(t, tti, target, own, 3 - a, ZERO);
  }

  /** Between two nodes that flatter each other a packet goes to and fro any number of times, and neither
      node ever delivers or defers it. */
  lemma TwinsCircle(tti: Tti, target: Vector, dst: Address, s: Entry, e: Entry, n: nat)
    requires Better(RankOf(tti, target, e), RankOf(tti, target, s)) && 2 < dst
    ensures var net := Twins(s, e);
            Chain(net, tti, target, dst, Circle(n)) && (2 < n ==> Repeats(Circle(n)))
            && forall a :: !Arrives(net, tti, target, dst, a)
  {
    hide Better, Forwards;
    Passes(tti, target, dst, s, e, 1);
    Passes(tti, target, dst, s, e, 2);
    var path := Circle(n);
    forall i | 0 <= i < n - 1 ensures path[i + 1] == 3 - path[i] {
      Turns(i);
    }
    if 2 < n {
      assert path[0] == path[2];
    }
  }

  /** `net` is fed and loops on `path`. */
  ghost predicate Loops(tti: Tti, target: Vector, heard: Hearing, net: Network, dst: Address, path: seq<Address>) {
    Fed(net, heard) && Chain(net, tti, target, dst, path) && Repeats(path)
  }

  lemma LoopBoasts(tti: Tti, target: Vector, heard: Hearing, net: Network, dst: Address, path: seq<Address>)
    requires Loops(tti, target, heard, net, dst, path)
    ensures Boasts(tti, target, heard)
  {
    hide Chain, Repeats, Boasts, Fed, Modest;
    if !Boasts(tti, target, heard) {
      ModestUnless(net, tti, target, heard);
      LoopFree(net, tti, target, dst, path);
    }
  }

  lemma BoastLoops(tti: Tti, target: Vector, heard: Hearing, s: Entry, e: Entry)
    requires heard(s, e) && Better(RankOf(tti, target, e), RankOf(tti, target, s))
    ensures Loops(tti, target, heard, Twins(s, e), 3, Circle(3))
  {
    hide Chain, Repeats, Better;
    TwinsCircle(tti, target, 3, s, e, 3);
  }

  /** Some network loops exactly when some node can be heard as better than it ranks itself. */
  lemma LoopIff(tti: Tti, target: Vector, heard: Hearing)
    ensures (exists net: Network, dst: Address, path: seq<Address> :: Loops(tti, target, heard, net, dst, path))
       <==> Boasts(tti, target, heard)
  {
    hide Loops, Better;
    if net: Network, dst: Address, path: seq<Address> :| Loops(tti, target, heard, net, dst, path) {
      LoopBoasts(tti, target, heard, net, dst, path);
    }
    if Boasts(tti, target, heard) {
      var s, e :| heard(s, e) && Better(RankOf(tti, target, e), RankOf(tti, target, s));
      BoastLoops(tti, target, heard, s, e);
    }
  }

  /** In every network every chain gets to a node that delivers or defers, exactly when none can. */
  lemma EndsIff(tti: Tti, target: Vector, heard: Hearing)
    ensures (forall net: Network, dst: Address, path: seq<Address> ::
               Fed(net, heard) && path != [] && Chain(net, tti, target, dst, path) ==>
                 Ends(net, tti, target, dst, path))
       <==> !Boasts(tti, target, heard)
  {
    hide Chain, Better, Arrives;
    if Boasts(tti, target, heard) {
      var s, e :| heard(s, e) && Better(RankOf(tti, target, e), RankOf(tti, target, s));
      TwinsCircle(tti, target, 3, s, e, 1);
      assert Fed(Twins(s, e), heard) && Circle(1) != [];
      assert !Ends(Twins(s, e), tti, target, 3, Circle(1));
    } else {
      forall net: Network, dst: Address, path: seq<Address> |
          Fed(net, heard) && path != [] && Chain(net, tti, target, dst, path)
        ensures Ends(net, tti, target, dst, path)
      {
        ModestUnless(net, tti, target, heard);
        RouteEnds(net, tti, target, dst, path);
      }
    }
  }

  // ---------------------------------------------------------------- tables fed by hellos

  /** A node in state `s` sends a hello from which a neighbour learns `e`. */
  predicate Carries(s: Entry, e: Entry) {
    var h := Hello.EncodeF(s.position, s.velocity);
    h.Some? &&
    var g := Hello.HelloOf(Hello.HelloBytes(h.value));
    Hello.PositionOf(g) == e.position && Hello.VelocityOf(g) == Some(e.velocity)
  }

  /** Tables hold what hellos carried, from nodes in the states of `among`. */
  function ByHello(among: Entry -> bool): Hearing {
    (s: Entry, e: Entry) => among(s) && Carries(s, e)
  }

  /** Truncation makes the node look better than it is. */
  predicate Flattered(tti: Tti, target: Vector, s: Entry) {
    Hello.InRange(s.position, s.velocity) &&
    Better(tti(target, Hello.TruncateVector(s.position), Hello.TruncateVector(s.velocity)), RankOf(tti, target, s))
  }

  lemma CarriesTruncated(s: Entry, e: Entry)
    ensures Carries(s, e) <==>
      Hello.InRange(s.position, s.velocity)
      && e.position == Hello.TruncateVector(s.position) && e.velocity == Hello.TruncateVector(s.velocity)
  {
    hide Hello.EncodeF, Hello.HelloOf, Hello.HelloBytes, Hello.PositionOf, Hello.VelocityOf, Hello.InRange;
    Hello.HelloIsTruncation(s.position, s.velocity);
  }

  lemma BoastsIffFlattered(tti: Tti, target: Vector, among: Entry -> bool)
    ensures Boasts(tti, target, ByHello(among)) <==> exists s :: among(s) && Flattered(tti, target, s)
  {
    hide Better, Carries, Hello.InRange, Hello.TruncateVector;
    var heard := ByHello(among);
    if s, e :| heard(s, e) && Better(RankOf(tti, target, e), RankOf(tti, target, s)) {
      CarriesTruncated(s, e);
      assert among(s) && Flattered(tti, target, s);
    }
    if s :| among(s) && Flattered(tti, target, s) {
      var e := Entry(Hello.TruncateVector(s.position), Hello.TruncateVector(s.velocity), 0);
      CarriesTruncated(s, e);
      assert heard(s, e);
    }
  }

  /** Tables that hellos fed loop in some network of nodes in given states exactly when truncation flatters
      one of these states. */
  lemma HelloLoopIff(tti: Tti, target: Vector, among: Entry -> bool)
    ensures (exists net: Network, dst: Address, path: seq<Address> ::
               Loops(tti, target, ByHello(among), net, dst, path))
       <==> exists s :: among(s) && Flattered(tti, target, s)
  {
    hide Loops, Boasts, Flattered;
    LoopIff(tti, target, ByHello(among));
    BoastsIffFlattered(tti, target, among);
  }

  /** Tables hold the true states: nothing can be flattered. */
  function Exactly(): Hearing {
    (s: Entry, e: Entry) => e.position == s.position && e.velocity == s.velocity
  }

  lemma TruthIsModest(net: Network, tti: Tti, target: Vector)
    requires Fed(net, Exactly())
    ensures Modest(net, tti, target)
  {
    ModestUnless(net, tti, target, Exactly());
  }

  // ---------------------------------------------------------------- two targets

  /** RouteOutput looks up where the destination is, Forwarding does not: only the first hop is chosen for
      `first`. While no table flatters a node for the default vector, the rest is loop-free: the source may
      come up once more and no other node repeats; and it does not come up unless the default vector ranks it
      above its own hop. */
  lemma SourceOnceMore(net: Network, tti: Tti, first: Vector, dst: Address, source: Address, rest: seq<Address>)
    requires Modest(net, tti, DEFAULT) && rest != [] && Chain(net, tti, DEFAULT, dst, rest)
    requires source in net.nodes && Forwards(net, tti, first, dst, source, Hop(rest[0])) && source != rest[0]
    ensures !Repeats(rest) && |[source] + rest| <= |net.nodes.Keys| + 1
    ensures source in rest ==> Better(NodeRank(net, tti, DEFAULT, source), NodeRank(net, tti, DEFAULT, rest[0]))
  {
    hide Picks, IsBest, Better;
    LoopFree(net, tti, DEFAULT, dst, rest);
    if source in rest {
      var k :| 0 <= k < |rest| && rest[k] == source;
      RankFalls(net, tti, DEFAULT, dst, rest, 0, k);
    }
  }

  /** The packet leaves `source` for `rest[0]` and comes back to it. */
  ghost predicate ComesBack(net: Network, tti: Tti, first: Vector, dst: Address, source: Address, rest: seq<Address>) {
    && source in net.nodes && source in net.tables && dst !in net.tables[source] && rest != []
    && Forwards(net, tti, first, dst, source, Hop(rest[0])) && Chain(net, tti, DEFAULT, dst, rest) && source in rest
  }

  ghost predicate Places(net: Network, s: Address, atSource: Entry, h: Address, atHop: Entry, rest: seq<Address>) {
    s in net.nodes && net.nodes[s] == atSource && h in net.nodes && net.nodes[h] == atHop && rest != [] && rest[0] == h
  }

  /** It does so in a fed network with the two nodes in these states. */
  ghost predicate Returns(tti: Tti, heard: Hearing, first: Vector, dst: Address, s: Address, atSource: Entry,
                          h: Address, atHop: Entry, net: Network, rest: seq<Address>) {
    Fed(net, heard) && Places(net, s, atSource, h, atHop, rest) && ComesBack(net, tti, first, dst, s, rest)
  }

  /** A node in state `a` can hear one in state `b` as better than itself. */
  ghost predicate Prefers(tti: Tti, target: Vector, heard: Hearing, a: Entry, b: Entry) {
    exists e :: heard(b, e) && Better(RankOf(tti, target, e), RankOf(tti, target, a))
  }

  /** Each state can hear the next one as better than itself. */
  ghost predicate Way(tti: Tti, heard: Hearing, states: seq<Entry>) {
    1 < |states| && forall i :: 0 <= i < |states| - 1 ==> Prefers(tti, DEFAULT, heard, states[i], states[i + 1])
  }

  ghost predicate Between(tti: Tti, heard: Hearing, states: seq<Entry>, from: Entry, to: Entry) {
    Way(tti, heard, states) && states[0] == from && states[|states| - 1] == to
  }

  /** The states of the nodes on the way back. */
  lemma ReturnIsWay(net: Network, tti: Tti, heard: Hearing, first: Vector, dst: Address, s: Address, rest: seq<Address>)
    returns (states: seq<Entry>)
    requires Fed(net, heard) && ComesBack(net, tti, first, dst, s, rest) && rest[0] != s
    ensures rest[0] in net.nodes && Between(tti, heard, states, net.nodes[rest[0]], net.nodes[s])
  {
    hide Better;
    var k :| 0 <= k < |rest| && rest[k] == s;
    states := seq(k + 1, i requires 0 <= i <= k => net.nodes[rest[i]]);
    forall i | 0 <= i < k ensures Prefers(tti, DEFAULT, heard, states[i], states[i + 1]) {
      var t := net.tables[rest[i]];
      assert Forwards(net, tti, DEFAULT, dst, rest[i], Hop(rest[i + 1]));
      assert heard(states[i + 1], t[rest[i + 1]]);
    }
  }

  // A network for a given way: a ring in which each node hears the next one only, the hop first, the source
  // last and fresh addresses between.

  function Name(s: Address, h: Address, dst: Address, n: nat, i: nat): Address {
    if i == 0 then h else if i + 1 == n then s else s + h + dst + i
  }

  function Names(s: Address, h: Address, dst: Address, n: nat): (names: seq<Address>)
    ensures |names| == n && forall i :: 0 <= i < n ==> names[i] == Name(s, h, dst, n, i)
  {
    seq(n, (i: nat) => Name(s, h, dst, n, i))
  }

  lemma NamesDiffer(s: Address, h: Address, dst: Address, n: nat)
    requires s != h && s != ZERO && h != ZERO && dst != s && dst != h && 1 < n
    ensures var names := Names(s, h, dst, n);
            !Repeats(names) && ZERO !in names && dst !in names && names[0] == h && names[n - 1] == s
  {
  }

  function Next(i: nat, n: nat): nat {
    if i + 1 == n then 0 else i + 1
  }

  /** Node i of the ring is in state i and lists the next node by entry i. */
  predicate RingNode(net: Network, names: seq<Address>, states: seq<Entry>, entries: seq<Entry>, i: nat)
    requires i < |names| == |states| == |entries|
  {
    && names[i] in net.nodes && net.nodes[names[i]] == states[i]
    && names[i] in net.tables && net.tables[names[i]] == map[names[Next(i, |names|)] := entries[i]]
  }

  predicate Ring(net: Network, names: seq<Address>, states: seq<Entry>, entries: seq<Entry>) {
    && |names| == |states| == |entries| && net.tables.Keys == net.nodes.Keys
    && (forall a :: a in net.nodes ==> a in names)
    && (forall i :: 0 <= i < |names| ==> RingNode(net, names, states, entries, i))
  }

  lemma {:induction false} Tabulate<T>(names: seq<Address>, values: seq<T>) returns (m: map<Address, T>)
    requires |names| == |values| && !Repeats(names)
    ensures forall a :: a in m <==> a in names
    ensures forall i :: 0 <= i < |names| ==> m[names[i]] == values[i]
  {
    if names == [] {
      m := map[];
    } else {
      var l := |names| - 1;
      assert names == names[..l] + [names[l]];
      var k := Tabulate(names[..l], values[..l]);
      m := k[names[l] := values[l]];
      forall i | 0 <= i < |names| ensures m[names[i]] == values[i] {
        assert i < l ==> names[..l][i] == names[i] && names[i] != names[l];
      }
    }
  }

  lemma RingExists(names: seq<Address>, states: seq<Entry>, entries: seq<Entry>) returns (net: Network)
    requires |names| == |states| == |entries| && !Repeats(names)
    ensures Ring(net, names, states, entries)
  {
    var nodes := Tabulate(names, states);
    var lists := seq(|names|, i requires 0 <= i < |names| => map[names[Next(i, |names|)] := entries[i]]);
    var tables := Tabulate(names, lists);
    assert tables.Keys == nodes.Keys;
    net := Network(nodes, tables);
    forall i | 0 <= i < |names| ensures RingNode(net, names, states, entries, i) {
      assert tables[names[i]] == lists[i];
    }
  }

  /** Node i hears node Next(i), and nothing else is heard. */
  lemma RingHears(net: Network, names: seq<Address>, states: seq<Entry>, entries: seq<Entry>, a: Address, k: Address)
    returns (i: nat)
    requires Ring(net, names, states, entries) && a in net.tables && k in net.tables[a]
    ensures i < |states| == |entries|
    ensures k in net.nodes && net.nodes[k] == states[Next(i, |states|)] && net.tables[a][k] == entries[i]
  {
    assert a in names;
    i :| 0 <= i < |names| && names[i] == a;
    assert RingNode(net, names, states, entries, i);
    assert k == names[Next(i, |names|)];
    assert RingNode(net, names, states, entries, Next(i, |names|));
  }

  lemma RingFed(net: Network, names: seq<Address>, states: seq<Entry>, entries: seq<Entry>, heard: Hearing)
    requires Ring(net, names, states, entries)
    requires forall i :: 0 <= i < |states| ==> heard(states[Next(i, |states|)], entries[i])
    ensures Fed(net, heard)
  {
    forall a, k | a in net.tables && k in net.tables[a]
      ensures k in net.nodes && heard(net.nodes[k], net.tables[a][k])
    {
      var i := RingHears(net, names, states, entries, a, k);
    }
  }

  lemma RingNamed(net: Network, names: seq<Address>, states: seq<Entry>, entries: seq<Entry>)
    requires Ring(net, names, states, entries)
    ensures forall i :: 0 <= i < |names| ==> names[i] in net.nodes && names[i] in net.tables
    ensures forall i :: 0 <= i < |names| ==> names[i] in net.nodes && net.nodes[names[i]] == states[i]
  {
    forall i | 0 <= i < |names|
      ensures names[i] in net.nodes && names[i] in net.tables && net.nodes[names[i]] == states[i]
    {
      assert RingNode(net, names, states, entries, i);
    }
  }

  lemma RingForwards(net: Network, names: seq<Address>, states: seq<Entry>, entries: seq<Entry>, tti: Tti,
                     target: Vector, dst: Address, i: nat)
    requires Ring(net, names, states, entries) && i < |names| && ZERO !in names && dst !in names
    requires Better(RankOf(tti, target, entries[i]), RankOf(tti, target, states[i]))
    ensures names[i] in net.nodes && names[i] in net.tables && dst !in net.tables[names[i]]
    ensures Forwards(net, tti, target, dst, names[i], Hop(names[Next(i, |names|)]))
  {
    hide Better, IsBest;
    assert RingNode(net, names, states, entries, i);
    var k := names[Next(i, |names|)];
    OnlyNeighbour(net.tables[names[i]], tti, target, NodeRank(net, tti, target, names[i]), k);
  }

  ghost function HeardAt(tti: Tti, target: Vector, heard: Hearing, a: Entry, b: Entry): (e: Entry)
    requires Prefers(tti, target, heard, a, b)
    ensures heard(b, e) && Better(RankOf(tti, target, e), RankOf(tti, target, a))
  {
    var e :| heard(b, e) && Better(RankOf(tti, target, e), RankOf(tti, target, a));
    e
  }

  /** The source chooses for `first`, everyone else for the default vector. */
  function TargetAt(first: Vector, i: nat, n: nat): Vector {
    if i + 1 == n then first else DEFAULT
  }

  lemma EntriesExist(tti: Tti, heard: Hearing, first: Vector, states: seq<Entry>) returns (entries: seq<Entry>)
    requires Way(tti, heard, states) && Prefers(tti, first, heard, states[|states| - 1], states[0])
    ensures |entries| == |states|
    ensures forall i :: 0 <= i < |states| ==> heard(states[Next(i, |states|)], entries[i])
    ensures forall i :: 0 <= i < |states| ==>
      var target := TargetAt(first, i, |states|);
      Better(RankOf(tti, target, entries[i]), RankOf(tti, target, states[i]))
  {
    hide Prefers, Better, RankOf;
    var n := |states|;
    forall i | 0 <= i < n ensures Prefers(tti, TargetAt(first, i, n), heard, states[i], states[Next(i, n)]) {
    }
    entries := seq(n, i requires 0 <= i < n
                        && Prefers(tti, TargetAt(first, i, n), heard, states[i], states[Next(i, n)])
                      => HeardAt(tti, TargetAt(first, i, n), heard, states[i], states[Next(i, n)]));
  }

  lemma RingReturns(net: Network, names: seq<Address>, states: seq<Entry>, entries: seq<Entry>, tti: Tti,
                    first: Vector, dst: Address)
    requires Ring(net, names, states, entries) && 1 < |names| && ZERO !in names && dst !in names
    requires forall i :: 0 <= i < |states| ==>
      var target := TargetAt(first, i, |states|);
      Better(RankOf(tti, target, entries[i]), RankOf(tti, target, states[i]))
    ensures ComesBack(net, tti, first, dst, names[|names| - 1], names)
  {
    hide Better, Forwards, RankOf;
    var n := |names|;
    RingNamed(net, names, states, entries);
    forall i | 0 <= i < n - 1
      ensures dst !in net.tables[names[i]] && Forwards(net, tti, DEFAULT, dst, names[i], Hop(names[i + 1]))
    {
      RingForwards(net, names, states, entries, tti, DEFAULT, dst, i);
    }
    RingForwards(net, names, states, entries, tti, first, dst, n - 1);
  }

  lemma WayReturns(tti: Tti, heard: Hearing, first: Vector, dst: Address, s: Address, h: Address, states: seq<Entry>)
    returns (net: Network, rest: seq<Address>)
    requires s != h && s != ZERO && h != ZERO && dst != s && dst != h
    requires Way(tti, heard, states) && Prefers(tti, first, heard, states[|states| - 1], states[0])
    ensures Returns(tti, heard, first, dst, s, states[|states| - 1], h, states[0], net, rest)
  {
    hide Prefers, Better, Repeats, Fed, ComesBack, RankOf, TargetAt;
    NamesDiffer(s, h, dst, |states|);
    rest := Names(s, h, dst, |states|);
    var entries := EntriesExist(tti, heard, first, states);
    net := RingExists(rest, states, entries);
    RingFed(net, rest, states, entries, heard);
    RingNamed(net, rest, states, entries);
    RingReturns(net, rest, states, entries, tti, first, dst);
  }

  /** When a source can prefer a hop for the looked-up target: in some network with these two the packet comes
      back exactly when some sequence of states leads from the hop to the source, each of which can hear the
      next as better than itself for the default vector. */
  lemma ReturnIff(tti: Tti, heard: Hearing, first: Vector, dst: Address,
                  s: Address, atSource: Entry, h: Address, atHop: Entry)
    requires s != h && s != ZERO && h != ZERO && dst != s && dst != h
    requires Prefers(tti, first, heard, atSource, atHop)
    ensures (exists net: Network, rest: seq<Address> ::
               Returns(tti, heard, first, dst, s, atSource, h, atHop, net, rest))
       <==> exists states :: Between(tti, heard, states, atHop, atSource)
  {
    hide Prefers, ComesBack, Fed, Way;
    if net: Network, rest: seq<Address> :| Returns(tti, heard, first, dst, s, atSource, h, atHop, net, rest) {
      var states := ReturnIsWay(net, tti, heard, first, dst, s, rest);
    }
    if states :| Between(tti, heard, states, atHop, atSource) {
      assert 1 < |states| by { WayLong(tti, heard, states); }
      var net, rest := WayReturns(tti, heard, first, dst, s, h, states);
    }
  }

  lemma WayLong(tti: Tti, heard: Hearing, states: seq<Entry>)
    requires Way(tti, heard, states)
    ensures 1 < |states|
  {
  }

  /** Where nobody is flattered a way falls in rank, so its ends are a way of their own. */
  lemma {:induction false} WayIsDirect(tti: Tti, heard: Hearing, states: seq<Entry>)
    requires Way(tti, heard, states) && !Boasts(tti, DEFAULT, heard)
    ensures Prefers(tti, DEFAULT, heard, states[0], states[|states| - 1])
    decreases |states|
  {
    hide Better;
    var l := |states| - 1;
    assert Prefers(tti, DEFAULT, heard, states[l - 1], states[l]);
    if 1 < l {
      var pre := states[..l];
      forall i | 0 <= i < |pre| - 1 ensures Prefers(tti, DEFAULT, heard, pre[i], pre[i + 1]) {
        assert Prefers(tti, DEFAULT, heard, states[i], states[i + 1]);
      }
      WayIsDirect(tti, heard, pre);
      PrefersOn(tti, heard, states[0], states[l - 1], states[l]);
    }
  }

  lemma PrefersOn(tti: Tti, heard: Hearing, a: Entry, b: Entry, c: Entry)
    requires Prefers(tti, DEFAULT, heard, a, b) && Prefers(tti, DEFAULT, heard, b, c) && !Boasts(tti, DEFAULT, heard)
    ensures Prefers(tti, DEFAULT, heard, a, c)
  {
    var e :| heard(b, e) && Better(RankOf(tti, DEFAULT, e), RankOf(tti, DEFAULT, a));
    assert !Better(RankOf(tti, DEFAULT, e), RankOf(tti, DEFAULT, b));
  }

  /** So then the packet comes back in some network exactly when the hop can hear the source as better than
      itself for the default vector. */
  lemma ComesBackIff(tti: Tti, heard: Hearing, first: Vector, dst: Address,
                     s: Address, atSource: Entry, h: Address, atHop: Entry)
    requires s != h && s != ZERO && h != ZERO && dst != s && dst != h
    requires Prefers(tti, first, heard, atSource, atHop) && !Boasts(tti, DEFAULT, heard)
    ensures (exists net: Network, rest: seq<Address> ::
               Returns(tti, heard, first, dst, s, atSource, h, atHop, net, rest))
       <==> Prefers(tti, DEFAULT, heard, atHop, atSource)
  {
    hide Prefers, Returns, Boasts, Way;
    ReturnIff(tti, heard, first, dst, s, atSource, h, atHop);
    if states :| Between(tti, heard, states, atHop, atSource) {
      WayLong(tti, heard, states);
      WayIsDirect(tti, heard, states);
    }
    if Prefers(tti, DEFAULT, heard, atHop, atSource) {
      assert Between(tti, heard, [atHop, atSource], atHop, atSource) by { PairIsWay(tti, heard, atHop, atSource); }
    }
  }

  lemma PairIsWay(tti: Tti, heard: Hearing, a: Entry, b: Entry)
    requires Prefers(tti, DEFAULT, heard, a, b)
    ensures Way(tti, heard, [a, b])
  {
  }

  // ---------------------------------------------------------------- both failures happen

  function Abs(v: real): real {
    if v < 0.0 then 0.0 - v else v
  }

  /** CalculateTimeToIntercept for nodes and targets on the x axis: an approaching node closes in at its own
      speed, a receding one has some negative relative speed. */
  function OnAxis(range: real, receding: real): Tti
    requires receding < 0.0
  {
    (target: Vector, p: Vector, v: Vector) =>
      var d := target.x - p.x;
      if v.x == 0.0 then 0.0
      else if (0.0 < d) == (0.0 < v.x) then TimeToIntercept(Abs(d), Abs(v.x), range)
      else TimeToIntercept(Abs(d), receding, range)
  }

  lemma Approaching(range: real, receding: real, target: Vector, p: Vector, v: Vector)
    requires receding < 0.0 && v.x < 0.0 && target.x < p.x
    ensures OnAxis(range, receding)(target, p, v) == TimeToIntercept(p.x - target.x, 0.0 - v.x, range)
  {
  }

  // The range and the speeds are those of the simulation (aero-test-final.cc:660-689, 763).

  const RANGE := 27800.0

  const GLIDER := Entry(Vector(20000.0, 0.0, 0.0), Vector(-1000.5, 0.0, 0.0), 0)
  const ROUNDED := Entry(Vector(20000.0, 0.0, 0.0), Vector(-1000.0, 0.0, 0.0), 0)

  /** Two nodes 7.8 km inside the range that fly at 1000.5 m/s: each hears the other at 1000 m/s, which is
      more time inside, and the packet goes to and fro for ever. */
  lemma HellosLoop(receding: real, dst: Address, n: nat)
    requires receding < 0.0 && 2 < dst
    ensures Carries(GLIDER, ROUNDED) && Fed(Twins(GLIDER, ROUNDED), ByHello(e => e == GLIDER))
    ensures Chain(Twins(GLIDER, ROUNDED), OnAxis(RANGE, receding), DEFAULT, dst, Circle(n))
    ensures forall a :: !Arrives(Twins(GLIDER, ROUNDED), OnAxis(RANGE, receding), DEFAULT, dst, a)
  {
    hide OnAxis, Carries, Chain, Arrives;
    CarriesTruncated(GLIDER, ROUNDED);
    Approaching(RANGE, receding, DEFAULT, GLIDER.position, GLIDER.velocity);
    Approaching(RANGE, receding, DEFAULT, ROUNDED.position, ROUNDED.velocity);
    Slower();
    TwinsCircle(OnAxis(RANGE, receding), DEFAULT, dst, GLIDER, ROUNDED, n);
  }

  lemma Slower()
    ensures Better(TimeToIntercept(20000.0, 1000.0, RANGE), TimeToIntercept(20000.0, 1000.5, RANGE))
  {
    assert (20000.0 - RANGE) / 1000.0 == -7.8;
    var q := (20000.0 - RANGE) / 1000.5;
    assert q * 1000.5 == -7800.0;
    assert -7.8 < q < 0.0;
  }

  const FASTER := Entry(Vector(140000.0, 0.0, 0.0), Vector(-1200.0, 0.0, 0.0), 0)
  const NEARER := Entry(Vector(125000.0, 0.0, 0.0), Vector(-800.0, 0.0, 0.0), 0)
  const TARGET := Vector(90000.0, 0.0, 0.0)

  lemma Ranks(receding: real)
    requires receding < 0.0
    ensures var tti := OnAxis(RANGE, receding);
            && RankOf(tti, TARGET, FASTER) == 18.5 && RankOf(tti, TARGET, NEARER) == 9.0
            && RankOf(tti, DEFAULT, FASTER) == 93.5 && RankOf(tti, DEFAULT, NEARER) == 121.5
  {
    hide OnAxis;
    Approaching(RANGE, receding, TARGET, FASTER.position, FASTER.velocity);
    Approaching(RANGE, receding, TARGET, NEARER.position, NEARER.velocity);
    Approaching(RANGE, receding, DEFAULT, FASTER.position, FASTER.velocity);
    Approaching(RANGE, receding, DEFAULT, NEARER.position, NEARER.velocity);
    assert 22200.0 / 1200.0 == 18.5 && 7200.0 / 800.0 == 9.0;
    assert 112200.0 / 1200.0 == 93.5 && 97200.0 / 800.0 == 121.5;
  }

  /** Two nodes 15 km apart in states that hellos carry unchanged: the faster node 1 hands the packet to the
      nearer node 2, which hands it back. */
  lemma SourceComesBack(receding: real)
    requires receding < 0.0
    ensures Carries(FASTER, FASTER) && Carries(NEARER, NEARER)
    ensures exists net: Network, rest: seq<Address> ::
      Returns(OnAxis(RANGE, receding), Exactly(), TARGET, 9, 1, FASTER, 2, NEARER, net, rest)
  {
    hide Returns, OnAxis, Carries, Boasts;
    CarriesTruncated(FASTER, FASTER);
    CarriesTruncated(NEARER, NEARER);
    Ranks(receding);
    var tti := OnAxis(RANGE, receding);
    assert Prefers(tti, TARGET, Exactly(), FASTER, NEARER) by { PrefersExactly(tti, TARGET, FASTER, NEARER); }
    assert Prefers(tti, DEFAULT, Exactly(), NEARER, FASTER) by { PrefersExactly(tti, DEFAULT, NEARER, FASTER); }
    assert !Boasts(tti, DEFAULT, Exactly()) by { TruthNeverBoasts(tti, DEFAULT); }
    ComesBackIff(tti, Exactly(), TARGET, 9, 1, FASTER, 2, NEARER);
  }

  lemma PrefersExactly(tti: Tti, target: Vector, a: Entry, b: Entry)
    ensures Prefers(tti, target, Exactly(), a, b) <==> Better(RankOf(tti, target, b), RankOf(tti, target, a))
  {
    assert Exactly()(b, b);
  }

  lemma TruthNeverBoasts(tti: Tti, target: Vector)
    ensures !Boasts(tti, target, Exactly())
  {
  }
}
