/**
 Agreement over every run of the handshake. A message that was sent may arrive any number of times, or
 never, and outsiders send whatever they like with any signature that no node of the network made. In a
 network that keeps addresses a message arrives at the node with the address it was sent to, in one that
 does not it may arrive anywhere.
 */
module HandshakeRuns {
  import opened Wrappers
  import opened Hello
  import opened Handshake

  /** `nodes` by identifier, the messages sent so far, and the requests each accepting node answered. */
  datatype State = State(nodes: map<NodeId, Node>, sent: seq<Message>, accepted: seq<Message>)

  datatype Label =
    | Ask(n: NodeId, now: u64)
    | Deliver(n: NodeId, k: nat, now: u64, timely: bool, wire: Wire)
    | Inject(m: Message)

  /** Signed by nobody of the network. */
  predicate Outside(s: State, m: Message) {
    m.sign.signer !in s.nodes
  }

  predicate Enabled(s: State, l: Label) {
    match l
    case Ask(n, _) => n in s.nodes && n != GROUND
    case Deliver(n, k, _, _, _) => n in s.nodes && k < |s.sent|
    case Inject(m) => Outside(s, m)
  }

  /** Certificates of the network's nodes are trusted. */
  predicate Trusted(s: State, m: Message) {
    m.cert.owner in s.nodes
  }

  function Do(s: State, l: Label): State
    requires Enabled(s, l)
  {
    match l
    case Ask(n, now) => s.(sent := s.sent + [RequestOf(s.nodes[n], now)])
    case Deliver(n, k, now, timely, wire) =>
      var (r, answer) := ReceiveF(s.nodes[n], s.sent[k], now, timely, Trusted(s, s.sent[k]), wire);
      var t := s.(nodes := s.nodes[n := r]);
      if answer.Some? then t.(sent := t.sent + [answer.value], accepted := t.accepted + [s.sent[k]]) else t
    case Inject(m) => s.(sent := s.sent + [m])
  }

  predicate Legal(s: State, ls: seq<Label>)
    decreases |ls|
  {
    ls == [] || (Enabled(s, ls[0]) && Legal(Do(s, ls[0]), ls[1..]))
  }

  function Exec(s: State, ls: seq<Label>): State
    requires Legal(s, ls)
    decreases |ls|
  {
    if ls == [] then s else Exec(Do(s, ls[0]), ls[1..])
  }

  predicate Initial(s: State) {
    && s.sent == [] && s.accepted == [] && GROUND in s.nodes
    && (forall n :: n in s.nodes ==> s.nodes[n].id == n && s.nodes[n].authenticated == (n == GROUND))
  }

  predicate Airborne(s: State, n: NodeId) {
    n in s.nodes && n != GROUND
  }

  // ---------------------------------------------------------------- what is claimed

  /** The ground station answered a request of `n` with n's random number, from n's address. */
  predicate Answered(s: State, n: NodeId) {
    n in s.nodes &&
    exists i :: 0 <= i < |s.accepted| && s.accepted[i].Request? && s.accepted[i].cert == Cert(n)
                && s.accepted[i].rand == s.nodes[n].rand && s.accepted[i].source == s.nodes[n].ip
  }

  /** Every authenticated airborne node holds the ground station's key, was answered, and is the node
      that its address identifies. */
  ghost predicate Agreement(s: State)
    requires GROUND in s.nodes
  {
    forall n :: Airborne(s, n) && s.nodes[n].authenticated ==>
      s.nodes[n].key == s.nodes[GROUND].key && Answered(s, n) && Ident(s.nodes[n].ip) as int == n
  }

  /** Node m's reply also passes node n's tests: same random number, and m's address identifies n. */
  predicate Fits(s: State, m: NodeId, n: NodeId) {
    m in s.nodes && n in s.nodes && s.nodes[m].rand == s.nodes[n].rand && Ident(s.nodes[m].ip) as int == n
  }

  ghost predicate NoClash(s: State) {
    forall m, n :: Airborne(s, m) && Airborne(s, n) && Fits(s, m, n) ==> m == n
  }

  // ---------------------------------------------------------------- invariant

  /** Identity, address and random number never change, nor the ground station's key. */
  predicate Alike(s: State, t: State) {
    && s.nodes.Keys == t.nodes.Keys && GROUND in s.nodes && s.nodes[GROUND].key == t.nodes[GROUND].key
    && forall n :: n in s.nodes ==>
         s.nodes[n].id == n && t.nodes[n].id == n
         && s.nodes[n].ip == t.nodes[n].ip && s.nodes[n].rand == t.nodes[n].rand
  }

  /** A sent message is a request of an airborne node, or the ground station's reply to one it accepted. */
  predicate Origin(s: State, m: Message) {
    match m
    case Request(_, source, cert, _, rand, ident, _) =>
      Airborne(s, cert.owner) && source == s.nodes[cert.owner].ip && rand == s.nodes[cert.owner].rand && ident == 0
    case Reply(to, cert, _, _, oldRand, ident, k, _) =>
      && cert == Cert(GROUND) && Airborne(s, k.to) && Answered(s, k.to) && GROUND in s.nodes
      && k.content == s.nodes[GROUND].key && oldRand == s.nodes[k.to].rand && ident == Ident(s.nodes[k.to].ip)
      && to == s.nodes[k.to].ip
  }

  /** An authenticated node took a reply for `m`, and its key if it was for itself. */
  predicate Source(s: State, n: NodeId, m: NodeId) {
    Airborne(s, m) && Answered(s, m) && Fits(s, m, n)
    && (m == n ==> GROUND in s.nodes && n in s.nodes && s.nodes[n].key == s.nodes[GROUND].key)
  }

  ghost predicate Inv(s: State) {
    && GROUND in s.nodes && (forall n :: n in s.nodes ==> s.nodes[n].id == n)
    && (forall i :: 0 <= i < |s.sent| ==> Outside(s, s.sent[i]) || Origin(s, s.sent[i]))
    && (forall n :: Airborne(s, n) && s.nodes[n].authenticated ==> exists m :: Source(s, n, m))
  }

  lemma AnsweredLater(s: State, t: State, n: NodeId)
    requires Answered(s, n) && Alike(s, t) && s.accepted <= t.accepted
    ensures Answered(t, n)
  {
    var i :| 0 <= i < |s.accepted| && s.accepted[i].Request? && s.accepted[i].cert == Cert(n)
             && s.accepted[i].rand == s.nodes[n].rand && s.accepted[i].source == s.nodes[n].ip;
    assert t.accepted[i] == s.accepted[i];
  }

  lemma OriginLater(s: State, t: State, m: Message)
    requires Origin(s, m) && Alike(s, t) && s.accepted <= t.accepted
    ensures Origin(t, m)
  {
    hide Answered;
    if m.Reply? {
      AnsweredLater(s, t, m.sealedKey.to);
    }
  }

  lemma SourceLater(s: State, t: State, n: NodeId, m: NodeId)
    requires Source(s, n, m) && Alike(s, t) && s.accepted <= t.accepted
    requires n in s.nodes && (m == n ==> t.nodes[n].key == s.nodes[n].key || t.nodes[n].key == t.nodes[GROUND].key)
    ensures Source(t, n, m)
  {
    hide Answered;
    AnsweredLater(s, t, m);
  }

  lemma StepIsAlike(s: State, l: Label)
    requires Inv(s) && Enabled(s, l)
    ensures Alike(s, Do(s, l)) && s.accepted <= Do(s, l).accepted
  {
    hide RequestOf, ReplyOf, Answered, Source, GsBytes, AnBytes;
    if l.Deliver? && s.sent[l.k].Reply? {
      assert Outside(s, s.sent[l.k]) || Origin(s, s.sent[l.k]);
    }
  }

  /** Only the ground station accepts a request, and it answers the node that made it. */
  lemma AnswerHasOrigin(s: State, l: Label)
    requires Inv(s) && Enabled(s, l) && l.Deliver? && s.sent[l.k].Request? && |Do(s, l).sent| > |s.sent|
    ensures var t := Do(s, l); t.sent[..|s.sent|] == s.sent && |t.sent| == |s.sent| + 1 && Origin(t, t.sent[|s.sent|])
  {
    hide Source, GsBytes, AnBytes;
    var m, t := s.sent[l.k], Do(s, l);
    assert Origin(s, m);
    StepIsAlike(s, l);
    assert t.accepted[|s.accepted|] == m;
    assert Answered(t, m.cert.owner);
  }

  lemma TakenHasSource(s: State, l: Label)
    requires Inv(s) && Enabled(s, l) && l.Deliver? && s.sent[l.k].Reply? && Airborne(s, l.n)
    requires Do(s, l).nodes[l.n].authenticated
    ensures Source(Do(s, l), l.n, s.sent[l.k].sealedKey.to)
  {
    hide GsBytes, AnBytes;
    var m, t := s.sent[l.k], Do(s, l);
    assert Origin(s, m);
    StepIsAlike(s, l);
    AnsweredLater(s, t, m.sealedKey.to);
  }

  /** Nobody takes a reply that the network did not sign. */
  lemma TakenIsOurs(s: State, l: Label)
    requires Inv(s) && Enabled(s, l) && l.Deliver? && s.sent[l.k].Reply? && Do(s, l).nodes[l.n].authenticated
    ensures Origin(s, s.sent[l.k])
  {
    hide GsBytes, AnBytes, Source, Origin;
  }

  lemma DoShape(s: State, l: Label)
    requires Enabled(s, l)
    ensures var t := Do(s, l); |s.sent| <= |t.sent| <= |s.sent| + 1 && t.sent[..|s.sent|] == s.sent
    ensures l.Ask? ==> Do(s, l).nodes == s.nodes && Do(s, l).sent == s.sent + [RequestOf(s.nodes[l.n], l.now)]
    ensures l.Inject? ==> Do(s, l) == s.(sent := s.sent + [l.m])
    ensures l.Deliver? && s.sent[l.k].Reply? ==> Do(s, l).sent == s.sent
    ensures l.Deliver? ==> forall n :: n in s.nodes && (n != l.n || s.sent[l.k].Request?) ==>
                             n in Do(s, l).nodes && Do(s, l).nodes[n] == s.nodes[n]
  {
    hide SignOk, RequestOf, ReplyOf;
  }

  lemma StepKeeps(s: State, l: Label)
    requires Inv(s) && Enabled(s, l)
    ensures Inv(Do(s, l))
  {
    hide Do, Answered, Source, Origin, ReceiveF;
    var t := Do(s, l);
    StepIsAlike(s, l);
    DoShape(s, l);
    forall i | 0 <= i < |t.sent| ensures Outside(t, t.sent[i]) || Origin(t, t.sent[i]) {
      if i < |s.sent| {
        assert t.sent[i] == t.sent[..|s.sent|][i] == s.sent[i];
        if !Outside(s, s.sent[i]) {
          OriginLater(s, t, s.sent[i]);
        }
      } else if l.Inject? {
      } else if l.Ask? {
        AskHasOrigin(t, s.nodes[l.n], l.now);
      } else {
        AnswerHasOrigin(s, l);
      }
    }
    forall n | Airborne(t, n) && t.nodes[n].authenticated ensures exists m :: Source(t, n, m) {
      if l.Deliver? && s.sent[l.k].Reply? && n == l.n {
        TakenHasSource(s, l);
      } else {
        assert t.nodes[n] == s.nodes[n];
        var m :| Source(s, n, m);
        SourceLater(s, t, n, m);
      }
    }
  }

  lemma AskHasOrigin(t: State, n: Node, now: u64)
    requires Airborne(t, n.id) && t.nodes[n.id].ip == n.ip && t.nodes[n.id].rand == n.rand
    ensures Origin(t, RequestOf(n, now))
  {
  }

  lemma {:induction false} RunKeeps(s: State, ls: seq<Label>)
    requires Inv(s) && Legal(s, ls)
    ensures Inv(Exec(s, ls)) && Alike(s, Exec(s, ls))
    decreases |ls|
  {
    hide Do, Origin, Source, Enabled;
    if ls != [] {
      StepKeeps(s, ls[0]);
      StepIsAlike(s, ls[0]);
      RunKeeps(Do(s, ls[0]), ls[1..]);
    }
  }

  // ---------------------------------------------------------------- delivery to the addressee

  /** Whatever arrives, arrives where it was sent. */
  predicate Addressed(s: State, l: Label)
    requires Enabled(s, l)
  {
    l.Deliver? ==> s.sent[l.k].to == s.nodes[l.n].ip
  }

  predicate AllAddressed(s: State, ls: seq<Label>)
    requires Legal(s, ls)
    decreases |ls|
  {
    ls == [] || (Addressed(s, ls[0]) && AllAddressed(Do(s, ls[0]), ls[1..]))
  }

  predicate DistinctAddresses(s: State) {
    forall m, n :: m in s.nodes && n in s.nodes && s.nodes[m].ip == s.nodes[n].ip ==> m == n
  }

  /** Every authenticated node took the reply to its own request. */
  predicate OwnReplies(s: State) {
    forall n :: n in s.nodes && Airborne(s, n) && s.nodes[n].authenticated ==> Source(s, n, n)
  }

  lemma AddressedStep(s: State, l: Label)
    requires Inv(s) && OwnReplies(s) && DistinctAddresses(s) && Enabled(s, l) && Addressed(s, l)
    ensures OwnReplies(Do(s, l)) && DistinctAddresses(Do(s, l))
  {
    hide Do, Answered, Source, ReceiveF;
    var t := Do(s, l);
    StepIsAlike(s, l);
    DoShape(s, l);
    forall n | n in t.nodes && Airborne(t, n) && t.nodes[n].authenticated ensures Source(t, n, n) {
      if l.Deliver? && s.sent[l.k].Reply? && n == l.n {
        TakenHasSource(s, l);
        assert Origin(s, s.sent[l.k]) by { TakenIsOurs(s, l); }
      } else {
        assert t.nodes[n] == s.nodes[n];
        SourceLater(s, t, n, n);
      }
    }
  }

  lemma {:induction false} AddressedRun(s: State, ls: seq<Label>)
    requires Inv(s) && OwnReplies(s) && DistinctAddresses(s) && Legal(s, ls) && AllAddressed(s, ls)
    ensures OwnReplies(Exec(s, ls)) && Alike(s, Exec(s, ls))
    decreases |ls|
  {
    hide Do, OwnReplies, Inv, Enabled, Addressed, DistinctAddresses;
    if ls != [] {
      StepKeeps(s, ls[0]);
      StepIsAlike(s, ls[0]);
      AddressedStep(s, ls[0]);
      AddressedRun(Do(s, ls[0]), ls[1..]);
    } else {
      InvAlike(s);
    }
  }

  lemma InvAlike(s: State)
    requires Inv(s)
    ensures Alike(s, s)
  {
  }

  // ---------------------------------------------------------------- results

  /** When messages arrive only where they were sent and addresses are distinct, every authenticated
      airborne node, in every run and with any random numbers, holds the ground station's key, and the
      ground station answered its request with its random number. */
  lemma AddressedAgreement(s0: State, ls: seq<Label>)
    requires Initial(s0) && DistinctAddresses(s0) && Legal(s0, ls) && AllAddressed(s0, ls)
    ensures GROUND in Exec(s0, ls).nodes && Agreement(Exec(s0, ls))
  {
    hide Answered, Exec, Legal, AllAddressed;
    InitialInv(s0);
    AddressedRun(s0, ls);
  }

  /** Then, with the ground station at the address that requests go to, a node can be authenticated in some
      run exactly when its own address identifies it. */
  lemma AddressedAuthenticatesIff(s0: State, n: NodeId)
    requires Initial(s0) && DistinctAddresses(s0) && s0.nodes[GROUND].ip == BASE && Airborne(s0, n)
    ensures (exists ls :: Legal(s0, ls) && AllAddressed(s0, ls)
                          && n in Exec(s0, ls).nodes && Exec(s0, ls).nodes[n].authenticated)
       <==> Ident(s0.nodes[n].ip) as int == n
  {
    hide Exec, Legal, AllAddressed, Answered;
    InitialInv(s0);
    if ls :| Legal(s0, ls) && AllAddressed(s0, ls)
             && n in Exec(s0, ls).nodes && Exec(s0, ls).nodes[n].authenticated {
      AddressedRun(s0, ls);
      assert Source(Exec(s0, ls), n, n);
    }
    if Ident(s0.nodes[n].ip) as int == n {
      HandoverRuns(s0, n, n);
      HandoverAddressed(s0, n);
    }
  }

  /** In a network that may misdeliver: without a clash, in every run every authenticated airborne node holds
      the ground station's key, and the ground station answered its request with its random number. */
  lemma AgreementWithoutClash(s0: State, ls: seq<Label>)
    requires Initial(s0) && NoClash(s0) && Legal(s0, ls)
    ensures GROUND in Exec(s0, ls).nodes && Agreement(Exec(s0, ls))
  {
    hide Origin, Answered;
    RunKeeps(s0, ls);
    var s := Exec(s0, ls);
    forall n | Airborne(s, n) && s.nodes[n].authenticated
      ensures s.nodes[n].key == s.nodes[GROUND].key && Answered(s, n) && Ident(s.nodes[n].ip) as int == n
    {
      var m :| Source(s, n, m);
      assert Fits(s0, m, n) && Airborne(s0, m) && Airborne(s0, n);
    }
  }

  const ZEROS: Wire := Zeros(256)

  /** The run of one handshake: `m` asks, the ground station answers, `n` takes the reply. */
  function Handover(m: NodeId, n: NodeId): seq<Label> {
    [Ask(m, 0), Deliver(GROUND, 0, 0, true, ZEROS), Deliver(n, 1, 0, true, ZEROS)]
  }

  function FirstReply(s: State, m: NodeId): Message
    requires GROUND in s.nodes && m in s.nodes
  {
    ReplyOf(s.nodes[GROUND], s.nodes[m].ip, 0, m, s.nodes[m].rand, Ident(s.nodes[m].ip), ZEROS)
  }

  lemma AskStep(s0: State, m: NodeId)
    requires Initial(s0) && Airborne(s0, m)
    ensures Enabled(s0, Ask(m, 0))
    ensures Do(s0, Ask(m, 0)) == State(s0.nodes, [RequestOf(s0.nodes[m], 0)], [])
  {
  }

  lemma AnswerStep(s: State, m: NodeId)
    requires GROUND in s.nodes && s.nodes[GROUND].id == GROUND && m in s.nodes && s.nodes[m].id == m
    requires s.sent == [RequestOf(s.nodes[m], 0)] && s.accepted == []
    ensures Enabled(s, Deliver(GROUND, 0, 0, true, ZEROS))
    ensures Do(s, Deliver(GROUND, 0, 0, true, ZEROS)) ==
            State(s.nodes, [RequestOf(s.nodes[m], 0), FirstReply(s, m)], [RequestOf(s.nodes[m], 0)])
  {
    hide AnBytes, GsBytes, Ident;
    assert s.nodes[GROUND := s.nodes[GROUND]] == s.nodes;
  }

  lemma TakeStep(s: State, m: NodeId, n: NodeId)
    requires GROUND in s.nodes && s.nodes[GROUND].id == GROUND && Airborne(s, m) && Airborne(s, n) && s.nodes[n].id == n
    requires Fits(s, m, n) && |s.sent| == 2
    requires s.sent[1] == FirstReply(s, m)
    ensures Enabled(s, Deliver(n, 1, 0, true, ZEROS))
    ensures var t := Do(s, Deliver(n, 1, 0, true, ZEROS));
            && t.nodes.Keys == s.nodes.Keys && t.accepted == s.accepted && t.nodes[n].authenticated
            && t.nodes[GROUND] == s.nodes[GROUND]
            && t.nodes[n].key == if m == n then s.nodes[GROUND].key else s.nodes[n].key
  {
    hide AnBytes, GsBytes, Ident;
  }

  lemma HandoverRuns(s0: State, m: NodeId, n: NodeId)
    requires Initial(s0) && Airborne(s0, m) && Airborne(s0, n) && Fits(s0, m, n)
    ensures Legal(s0, Handover(m, n))
    ensures var s := Exec(s0, Handover(m, n));
            Airborne(s, n) && s.nodes[n].authenticated && s.accepted == [RequestOf(s0.nodes[m], 0)]
            && s.nodes[n].key == if m == n then s0.nodes[GROUND].key else s0.nodes[n].key
  {
    hide Do, Enabled, RequestOf, ReplyOf, Ident;
    var ls := Handover(m, n);
    AskStep(s0, m);
    var s1 := Do(s0, ls[0]);
    AnswerStep(s1, m);
    var s2 := Do(s1, ls[1]);
    TakeStep(s2, m, n);
    var s3 := Do(s2, ls[2]);
    assert ls[1..][0] == ls[1] && ls[1..][1..] == [ls[2]] && [ls[2]][1..] == [];
    assert Legal(s3, []) && Legal(s2, [ls[2]]) && Legal(s1, ls[1..]);
    assert Exec(s3, []) == s3;
    assert Exec(s2, [ls[2]]) == s3;
    assert Exec(s1, ls[1..]) == s3;
  }

  lemma HandoverAddressed(s0: State, n: NodeId)
    requires Initial(s0) && s0.nodes[GROUND].ip == BASE && Airborne(s0, n) && Fits(s0, n, n)
    requires Legal(s0, Handover(n, n))
    ensures AllAddressed(s0, Handover(n, n))
  {
    hide Do, Enabled, Ident;
    var ls := Handover(n, n);
    AskStep(s0, n);
    var s1 := Do(s0, ls[0]);
    AnswerStep(s1, n);
    var s2 := Do(s1, ls[1]);
    TakeStep(s2, n, n);
    var s3 := Do(s2, ls[2]);
    assert ls[1..][0] == ls[1] && ls[1..][1..] == [ls[2]] && [ls[2]][1..] == [];
    assert AllAddressed(s3, []);
    assert AllAddressed(s2, [ls[2]]);
    assert AllAddressed(s1, ls[1..]);
  }

  /** In a network that may misdeliver: with a clash, some run authenticates a node that the ground station
      never answered, and leaves it with whatever its key buffer held before. */
  lemma ClashBreaksAgreement(s0: State, m: NodeId, n: NodeId)
    requires Initial(s0) && Airborne(s0, m) && Airborne(s0, n) && Fits(s0, m, n) && m != n
    ensures Legal(s0, Handover(m, n)) && GROUND in Exec(s0, Handover(m, n)).nodes
    ensures !Agreement(Exec(s0, Handover(m, n)))
    ensures var s := Exec(s0, Handover(m, n)); n in s.nodes && s.nodes[n].key == s0.nodes[n].key
  {
    hide Handover;
    HandoverRuns(s0, m, n);
    InitialInv(s0);
    RunKeeps(s0, Handover(m, n));
  }

  lemma InitialInv(s0: State)
    requires Initial(s0)
    ensures Inv(s0)
  {
  }

  /** So in a network that may deliver a message to a node it was not sent to, agreement holds over all
      runs exactly when no two airborne nodes clash. */
  lemma AgreementIff(s0: State)
    requires Initial(s0)
    ensures NoClash(s0) <==>
      forall ls :: Legal(s0, ls) ==> GROUND in Exec(s0, ls).nodes && Agreement(Exec(s0, ls))
  {
    hide Agreement, Fits, Legal, Exec;
    if NoClash(s0) {
      forall ls | Legal(s0, ls) ensures GROUND in Exec(s0, ls).nodes && Agreement(Exec(s0, ls)) {
        AgreementWithoutClash(s0, ls);
      }
    } else {
      var m, n :| Airborne(s0, m) && Airborne(s0, n) && Fits(s0, m, n) && m != n;
      ClashBreaksAgreement(s0, m, n);
    }
  }

  /** In such a network a node can ever be authenticated exactly when some airborne node's reply fits it;
      without clashes, exactly when its own address identifies it. */
  lemma AuthenticatesIff(s0: State, n: NodeId)
    requires Initial(s0) && Airborne(s0, n)
    ensures (exists ls :: Legal(s0, ls) && n in Exec(s0, ls).nodes && Exec(s0, ls).nodes[n].authenticated)
       <==> exists m :: Airborne(s0, m) && Fits(s0, m, n)
    ensures NoClash(s0) ==> ((exists m :: Airborne(s0, m) && Fits(s0, m, n)) <==> Ident(s0.nodes[n].ip) as int == n)
  {
    hide Exec, Legal, Answered, Origin;
    assert Ident(s0.nodes[n].ip) as int == n ==> Fits(s0, n, n);
    InitialInv(s0);
    if ls :| Legal(s0, ls) && n in Exec(s0, ls).nodes && Exec(s0, ls).nodes[n].authenticated {
      RunKeeps(s0, ls);
      var s := Exec(s0, ls);
      assert Airborne(s, n);
      var m :| Source(s, n, m);
      assert Airborne(s0, m) && Fits(s0, m, n);
    }
    if m :| Airborne(s0, m) && Fits(s0, m, n) {
      HandoverRuns(s0, m, n);
    }
  }

  /** Consecutive addresses from 192.168.1.1 on: below 256 every node is identified by its own address,
      so there is no clash; node 256 and later have no address that identifies them. */
  lemma ConsecutiveAddresses(s0: State)
    requires Initial(s0) && forall n :: n in s0.nodes ==> s0.nodes[n].ip == BASE + n
    ensures forall n :: n in s0.nodes ==> (Ident(s0.nodes[n].ip) as int == n <==> n < 256)
    ensures (forall n :: n in s0.nodes ==> n < 256) ==> NoClash(s0)
  {
    forall n | n in s0.nodes ensures Ident(s0.nodes[n].ip) as int == n % 256 {
      assert (BASE + n) % BASE == n;
    }
  }
}
