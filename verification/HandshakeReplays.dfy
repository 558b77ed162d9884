/**
 The handshake in a network in which anyone may repeat messages, alter their unsigned parts, attach a signature
 made earlier to other fields, and deliver anything to anyone.
 */
module HandshakeReplays {
  import opened Wrappers
  import opened Hello
  import opened Handshake
  import opened HandshakeRuns

  datatype Move = Own(l: Label) | Resend(m: Message)

  /** Nobody signs for a node of the network, but what it has signed can be used again. */
  predicate Resendable(s: State, m: Message) {
    m.sign.signer !in s.nodes
    || exists k :: 0 <= k < |s.sent| && s.sent[k].sign == m.sign
  }

  /** Encrypted bytes have one content. */
  predicate Coherent(s: State) {
    forall j, k :: 0 <= j < |s.sent| && 0 <= k < |s.sent| ==> SameContent(s.sent[j], s.sent[k])
  }

  predicate SameContent(m: Message, n: Message) {
    m.Reply? && n.Reply? && m.sealedKey.wire == n.sealedKey.wire ==> m.sealedKey == n.sealedKey
  }

  function Step(s: State, a: Move): State
    requires a.Own? ==> Enabled(s, a.l)
  {
    match a
    case Own(l) => Do(s, l)
    case Resend(m) => s.(sent := s.sent + [m])
  }

  predicate Possible(s: State, a: Move) {
    && (match a
        case Own(l) => Enabled(s, l) && !l.Inject?
        case Resend(m) => Resendable(s, m))
    && Coherent(Step(s, a))
  }

  predicate AllPossible(s: State, moves: seq<Move>)
    decreases |moves|
  {
    moves == [] || (Possible(s, moves[0]) && AllPossible(Step(s, moves[0]), moves[1..]))
  }

  function After(s: State, moves: seq<Move>): State
    requires AllPossible(s, moves)
    decreases |moves|
  {
    if moves == [] then s else After(Step(s, moves[0]), moves[1..])
  }

  // ---------------------------------------------------------------- what is claimed

  /** The ground station answered a request that `n` signed, with n's random number. */
  predicate AnsweredAs(s: State, n: NodeId) {
    n in s.nodes &&
    exists i :: 0 <= i < |s.accepted| && s.accepted[i].Request? && s.accepted[i].cert == Cert(n)
                && s.accepted[i].rand == s.nodes[n].rand
  }

  /** No other airborne node has the random number of `n`. */
  ghost predicate Alone(s: State, n: NodeId) {
    forall m :: Airborne(s, m) && n in s.nodes && s.nodes[m].rand == s.nodes[n].rand ==> m == n
  }

  lemma PossibleRuns(s: State, a: Move)
    requires Possible(s, a)
    ensures a.Own? ==> Enabled(s, a.l) && !a.l.Inject?
    ensures a.Resend? ==> Resendable(s, a.m)
    ensures Coherent(Step(s, a))
  {
  }

  // ---------------------------------------------------------------- what nodes have signed

  /** The ground station sealed its key for `owner` in these bytes, answering a request that owner signed. */
  ghost predicate SealedFor(s: State, owner: NodeId, oldRand: u32, wire: Wire) {
    && Airborne(s, owner) && AnsweredAs(s, owner) && oldRand == s.nodes[owner].rand && GROUND in s.nodes
    && exists j :: 0 <= j < |s.sent| && s.sent[j].Reply?
                   && s.sent[j].sealedKey == Sealed(owner, s.nodes[GROUND].key, wire)
  }

  datatype Fields = Fields(time: u64, rand: u32, oldRand: u32, ident: byte, wire: Wire, owner: NodeId)

  ghost predicate OverRequest(s: State, sign: Sign, time: u64) {
    Airborne(s, sign.signer) && sign.data == AnBytes(time, s.nodes[sign.signer].rand, 0)
  }

  ghost predicate OverReply(s: State, sign: Sign, f: Fields) {
    sign.signer == GROUND && sign.data == GsBytes(f.time, f.rand, f.oldRand, f.ident, f.wire)
    && SealedFor(s, f.owner, f.oldRand, f.wire)
  }

  /** A signature over a request of its airborne signer, or over a reply of the ground station. */
  ghost predicate Genuine(s: State, sign: Sign) {
    (exists time :: OverRequest(s, sign, time)) || (exists f :: OverReply(s, sign, f))
  }

  /** Every signature of a node is genuine, and whoever is authenticated was answered. */
  ghost predicate Kept(s: State) {
    && GROUND in s.nodes && (forall n :: n in s.nodes ==> s.nodes[n].id == n) && Coherent(s)
    && (forall k :: 0 <= k < |s.sent| && s.sent[k].sign.signer in s.nodes ==> Genuine(s, s.sent[k].sign))
    && (forall n :: Airborne(s, n) && s.nodes[n].authenticated && Alone(s, n) ==>
          s.nodes[n].key == s.nodes[GROUND].key && AnsweredAs(s, n))
  }

  /** Identity and random numbers stay, the ground station's key stays, and the records grow. */
  predicate Grows(s: State, t: State) {
    && s.nodes.Keys == t.nodes.Keys && GROUND in s.nodes && s.nodes[GROUND].key == t.nodes[GROUND].key
    && s.sent <= t.sent && s.accepted <= t.accepted
    && forall n :: n in s.nodes ==> s.nodes[n].id == t.nodes[n].id && s.nodes[n].rand == t.nodes[n].rand
  }

  lemma AnsweredGrows(s: State, t: State, n: NodeId)
    requires Grows(s, t) && AnsweredAs(s, n)
    ensures AnsweredAs(t, n)
  {
    var i :| 0 <= i < |s.accepted| && s.accepted[i].Request? && s.accepted[i].cert == Cert(n)
             && s.accepted[i].rand == s.nodes[n].rand;
    assert t.accepted[i] == s.accepted[i];
  }

  lemma SealedGrows(s: State, t: State, owner: NodeId, o: u32, w: Wire)
    requires Grows(s, t) && SealedFor(s, owner, o, w)
    ensures SealedFor(t, owner, o, w)
  {
    hide AnsweredAs;
    AnsweredGrows(s, t, owner);
    var j :| 0 <= j < |s.sent| && s.sent[j].Reply? && s.sent[j].sealedKey == Sealed(owner, s.nodes[GROUND].key, w);
    assert t.sent[j] == s.sent[j];
  }

  lemma GenuineGrows(s: State, t: State, sign: Sign)
    requires Grows(s, t) && Genuine(s, sign)
    ensures Genuine(t, sign)
  {
    hide SealedFor, GsBytes, AnBytes;
    if f :| OverReply(s, sign, f) {
      SealedGrows(s, t, f.owner, f.oldRand, f.wire);
      assert OverReply(t, sign, f);
    } else {
      var time :| OverRequest(s, sign, time);
      assert OverRequest(t, sign, time);
    }
  }

  /** A request that passes the signature test names who signed it, with that node's random number and
      identification 0; so only the ground station answers it. */
  lemma RequestIsGenuine(s: State, m: Message)
    requires Genuine(s, m.sign) && m.Request? && SignOk(m)
    ensures Airborne(s, m.cert.owner) && m.rand == s.nodes[m.cert.owner].rand && m.ident == 0
  {
    hide GsBytes, AnBytes, SealedFor;
    if f :| OverReply(s, m.sign, f) {
      KindsDiffer(m.time, m.rand, m.ident, f.time, f.rand, f.oldRand, f.ident, f.wire);
    } else {
      var time :| OverRequest(s, m.sign, time);
      AnBytesInjective(m.time, m.rand, m.ident, time, s.nodes[m.sign.signer].rand, 0);
    }
  }

  /** A reply that passes it is the ground station's, to a node whose random number it repeats, with its key
      sealed for that node. */
  lemma ReplyIsGenuine(s: State, m: Message)
    requires Genuine(s, m.sign) && Coherent(s) && m in s.sent && m.Reply? && SignOk(m)
    ensures var owner := m.sealedKey.to;
            Airborne(s, owner) && AnsweredAs(s, owner) && m.oldRand == s.nodes[owner].rand
            && GROUND in s.nodes && m.sealedKey.content == s.nodes[GROUND].key
  {
    hide GsBytes, AnBytes, AnsweredAs;
    if f :| OverReply(s, m.sign, f) {
      GsBytesInjective(m.time, m.rand, m.oldRand, m.ident, m.sealedKey.wire,
                       f.time, f.rand, f.oldRand, f.ident, f.wire);
      var j :| 0 <= j < |s.sent| && s.sent[j].Reply?
               && s.sent[j].sealedKey == Sealed(f.owner, s.nodes[GROUND].key, f.wire);
      assert SameContent(s.sent[j], m);
    } else {
      assert false;
    }
  }

  lemma SignerIsOwner(m: Message)
    requires SignOk(m)
    ensures m.sign.signer == m.cert.owner
  {
  }

  // ---------------------------------------------------------------- every step keeps it

  /** What a delivery does. */
  lemma DeliverShape(s: State, l: Label)
    requires Kept(s) && Enabled(s, l) && l.Deliver?
    ensures var m, n, t := s.sent[l.k], l.n, Do(s, l);
            && t.nodes.Keys == s.nodes.Keys && (forall k :: k in s.nodes && k != n ==> t.nodes[k] == s.nodes[k])
            && t.nodes[n].id == n && t.nodes[n].rand == s.nodes[n].rand && t.nodes[n].ip == s.nodes[n].ip
            && (m.Request? ==> t.nodes == s.nodes)
            && ((t.sent == s.sent && t.accepted == s.accepted)
                || (n == GROUND && m.Request? && SignOk(m) && m.cert.owner in s.nodes && t.accepted == s.accepted + [m]
                    && |t.sent| == |s.sent| + 1 && t.sent[..|s.sent|] == s.sent && exists i: byte, to: u32 ::
                      t.sent[|s.sent|] == ReplyOf(s.nodes[GROUND], to, l.now, m.cert.owner, m.rand, i, l.wire)))
            && (m.Reply? && t.nodes[n].authenticated ==>
                  SignOk(m) && m.cert.owner in s.nodes && m.oldRand == s.nodes[n].rand
                  && t.nodes[n].key == Decrypt(s.nodes[n], m.sealedKey))
            && (m.Reply? && !t.nodes[n].authenticated ==> t.nodes[n].key == s.nodes[n].key)
  {
    hide GsBytes, AnBytes, Genuine, AnsweredAs, ReplyOf;
    var m := s.sent[l.k];
    if m.Request? && SignOk(m) && m.cert.owner in s.nodes {
      RequestIsGenuine(s, m);
    }
    var r := ReceiveF(s.nodes[l.n], m, l.now, l.timely, Trusted(s, m), l.wire);
    if m.Request? && r.1.Some? {
      assert r.1.value == ReplyOf(s.nodes[l.n], m.source, l.now, m.cert.owner, m.rand, Ident(m.source), l.wire);
    }
  }

  lemma StepGrows(s: State, a: Move)
    requires Kept(s) && (a.Own? ==> Enabled(s, a.l))
    ensures Grows(s, Step(s, a))
  {
    hide GsBytes, AnBytes, Genuine, AnsweredAs, ReplyOf, RequestOf, SignOk;
    if a.Own? && a.l.Deliver? {
      hide Do;
      DeliverShape(s, a.l);
      var m, t := s.sent[a.l.k], Do(s, a.l);
      if m.Reply? && t.nodes[a.l.n].authenticated {
        SignerIsOwner(m);
        ReplyIsGenuine(s, m);
      }
    }
  }

  lemma AskIsGenuine(s: State, t: State, n: NodeId, now: u64)
    requires Airborne(s, n) && s.nodes[n].id == n && Grows(s, t)
    ensures Genuine(t, RequestOf(s.nodes[n], now).sign)
  {
    hide AnBytes;
    assert OverRequest(t, RequestOf(s.nodes[n], now).sign, now);
  }

  /** The ground station's answer to a signed request. */
  lemma AnswerIsGenuine(s: State, l: Label)
    requires Kept(s) && Enabled(s, l) && l.Deliver? && |Do(s, l).sent| == |s.sent| + 1
    ensures Genuine(Do(s, l), Do(s, l).sent[|s.sent|].sign)
  {
    hide AnBytes, GsBytes, Do, AnsweredAs, Genuine;
    var m, t := s.sent[l.k], Do(s, l);
    DeliverShape(s, l);
    StepGrows(s, Own(l));
    SignerIsOwner(m);
    RequestIsGenuine(s, m);
    var owner := m.cert.owner;
    assert t.accepted[|s.accepted|] == m;
    assert AnsweredAs(t, owner) by { AnsweredNow(t, |s.accepted|, owner); }
    var i: byte, to: u32 :| t.sent[|s.sent|] == ReplyOf(s.nodes[GROUND], to, l.now, owner, m.rand, i, l.wire);
    assert SealedFor(t, owner, m.rand, l.wire);
    var f := Fields(l.now, s.nodes[GROUND].rand, m.rand, i, l.wire, owner);
    assert OverReply(t, t.sent[|s.sent|].sign, f);
    GenuineReply(t, t.sent[|s.sent|].sign, f);
  }

  lemma AnsweredNow(s: State, i: nat, n: NodeId)
    requires n in s.nodes && i < |s.accepted| && s.accepted[i].Request? && s.accepted[i].cert == Cert(n)
    requires s.accepted[i].rand == s.nodes[n].rand
    ensures AnsweredAs(s, n)
  {
  }

  lemma GenuineReply(s: State, sign: Sign, f: Fields)
    requires OverReply(s, sign, f)
    ensures Genuine(s, sign)
  {
  }

  /** Every message after a step carries a genuine signature, or none of the network's. */
  lemma StepGenuine(s: State, a: Move, k: nat)
    requires Kept(s) && Possible(s, a) && k < |Step(s, a).sent| && Step(s, a).sent[k].sign.signer in s.nodes
    ensures Genuine(Step(s, a), Step(s, a).sent[k].sign)
  {
    hide Do, Genuine, Coherent, AnsweredAs;
    PossibleRuns(s, a);
    StepGrows(s, a);
    var t := Step(s, a);
    if k < |s.sent| {
      assert t.sent[k] == s.sent[k];
      GenuineGrows(s, t, s.sent[k].sign);
    } else if a.Resend? {
      var j :| 0 <= j < |s.sent| && s.sent[j].sign == a.m.sign;
      GenuineGrows(s, t, s.sent[j].sign);
    } else {
      DoShape(s, a.l);
      if a.l.Ask? {
        AskIsGenuine(s, t, a.l.n, a.l.now);
      } else {
        AnswerIsGenuine(s, a.l);
      }
    }
  }

  /** Whoever is authenticated and alone with its random number was answered and holds the key. */
  lemma StepAgrees(s: State, a: Move, n: NodeId)
    requires Kept(s) && Possible(s, a) && Airborne(Step(s, a), n) && Step(s, a).nodes[n].authenticated
    requires Alone(Step(s, a), n)
    ensures GROUND in Step(s, a).nodes
    ensures Step(s, a).nodes[n].key == Step(s, a).nodes[GROUND].key && AnsweredAs(Step(s, a), n)
  {
    hide Do, Genuine, Coherent, AnsweredAs;
    PossibleRuns(s, a);
    StepGrows(s, a);
    var t := Step(s, a);
    assert Alone(s, n) by { AloneBefore(s, t, n); }
    if a.Own? && a.l.Deliver? && a.l.n == n && s.sent[a.l.k].Reply? {
      DeliverShape(s, a.l);
      var m := s.sent[a.l.k];
      SignerIsOwner(m);
      ReplyIsGenuine(s, m);
      AnsweredGrows(s, t, m.sealedKey.to);
      assert m.sealedKey.to == n;
    } else {
      if a.Own? {
        DoShape(s, a.l);
        if a.l.Deliver? { DeliverShape(s, a.l); }
      }
      assert t.nodes[n] == s.nodes[n];
      AnsweredGrows(s, t, n);
    }
  }

  lemma AloneBefore(s: State, t: State, n: NodeId)
    requires Grows(s, t) && Alone(t, n) && n in s.nodes
    ensures Alone(s, n)
  {
    forall m | Airborne(s, m) && s.nodes[m].rand == s.nodes[n].rand ensures m == n {
      assert Airborne(t, m);
    }
  }

  lemma KeptStep(s: State, a: Move)
    requires Kept(s) && Possible(s, a)
    ensures Kept(Step(s, a)) && Grows(s, Step(s, a))
  {
    hide Do, Genuine, Coherent, AnsweredAs, Alone;
    PossibleRuns(s, a);
    StepGrows(s, a);
    var t := Step(s, a);
    forall k | 0 <= k < |t.sent| && t.sent[k].sign.signer in t.nodes ensures Genuine(t, t.sent[k].sign) {
      StepGenuine(s, a, k);
    }
    forall n | Airborne(t, n) && t.nodes[n].authenticated && Alone(t, n)
      ensures t.nodes[n].key == t.nodes[GROUND].key && AnsweredAs(t, n)
    {
      StepAgrees(s, a, n);
    }
  }

  lemma {:induction false} KeptRun(s: State, moves: seq<Move>)
    requires Kept(s) && AllPossible(s, moves)
    ensures Kept(After(s, moves)) && Grows(s, After(s, moves))
    decreases |moves|
  {
    hide Kept, Step, Possible;
    if moves != [] {
      PossibleRuns(s, moves[0]);
      KeptStep(s, moves[0]);
      KeptRun(Step(s, moves[0]), moves[1..]);
    } else {
      GrowsSelf(s);
    }
  }

  lemma GrowsSelf(s: State)
    requires Kept(s)
    ensures Grows(s, s)
  {
  }

  // ---------------------------------------------------------------- the result

  lemma InitialKept(s0: State)
    requires Initial(s0)
    ensures Kept(s0)
  {
  }

  lemma AloneAfter(s: State, t: State, n: NodeId)
    requires Grows(s, t) && Alone(s, n) && n in s.nodes
    ensures Alone(t, n)
  {
    forall m | Airborne(t, m) && t.nodes[m].rand == t.nodes[n].rand ensures m == n {
      assert Airborne(s, m);
    }
  }

  /** Repeated and altered messages change nothing for a node that shares its random number with no other
      airborne node: in every run, if it is authenticated, it holds the ground station's key, and the ground
      station answered a request that this node signed, with its random number. */
  lemma ReplayAgreement(s0: State, moves: seq<Move>)
    requires Initial(s0) && AllPossible(s0, moves)
    ensures var s := After(s0, moves);
            GROUND in s.nodes && forall n :: Airborne(s, n) && s.nodes[n].authenticated && Alone(s0, n) ==>
              s.nodes[n].key == s.nodes[GROUND].key && AnsweredAs(s, n)
  {
    hide AllPossible, After, Alone, AnsweredAs, Genuine, Coherent;
    var s := After(s0, moves);
    InitialKept(s0);
    KeptRun(s0, moves);
    forall n | Airborne(s, n) && s.nodes[n].authenticated && Alone(s0, n)
      ensures s.nodes[n].key == s.nodes[GROUND].key && AnsweredAs(s, n)
    {
      AloneAfter(s0, s, n);
    }
  }
}
