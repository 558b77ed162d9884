/**
 The handshake and the sealed hellos together: who learns whose position in a network in which messages
 arrive where they were sent.
 */
module SecureNetwork {
  import opened Wrappers
  import opened NeighborTable
  import opened Hello
  import opened HandshakeRuns
  import Handshake
  import SecureHello
  import GreedyLoops

  /** A node of the network as the receiver of hellos, in security mode. */
  function AsReceiver(n: Handshake.Node): SecureHello.Node {
    SecureHello.Node(true, n.authenticated, n.key)
  }

  /** Every authenticated node holds the ground station's key. */
  lemma OneKey(s0: State, ls: seq<Label>, b: Handshake.NodeId)
    requires Initial(s0) && DistinctAddresses(s0) && Legal(s0, ls) && AllAddressed(s0, ls)
    requires b in Exec(s0, ls).nodes && Exec(s0, ls).nodes[b].authenticated
    ensures var s := Exec(s0, ls); Handshake.GROUND in s.nodes && s.nodes[b].key == s.nodes[Handshake.GROUND].key
  {
    hide Exec, Legal, AllAddressed, Initial, DistinctAddresses, Answered;
    AddressedAgreement(s0, ls);
    var s := Exec(s0, ls);
    assert b != Handshake.GROUND ==> Airborne(s, b);
  }

  /** In every run: a node learns from a hello sealed under some key exactly when it is authenticated and that
      key is the ground station's; it then learns the sender's state as any hello carries it. */
  lemma LearnsIff(g: SecureHello.Gcm, s0: State, ls: seq<Label>, key: Handshake.Key, b: Handshake.NodeId,
                  src: u32, dst: u32, uid: u64, position: Vector, velocity: Vector)
    requires SecureHello.Ideal(g) && InRange(position, velocity) && EncodeF(position, velocity).Some?
    requires Initial(s0) && DistinctAddresses(s0) && Legal(s0, ls) && AllAddressed(s0, ls) && b in Exec(s0, ls).nodes
    requires SecureHello.Binds(g, key, SecureHello.Iv(uid), SecureHello.Aad(src, dst),
                               SecureHello.HelloPacket(uid, position, velocity).bytes[1..])
    ensures Handshake.GROUND in Exec(s0, ls).nodes
    ensures var s := Exec(s0, ls);
            var heard := SecureHello.ReceiveF(g, AsReceiver(s.nodes[b]), SecureHello.Aad(src, dst),
                           SecureHello.WrapF(g, key, src, dst, SecureHello.HelloPacket(uid, position, velocity)));
            if s.nodes[b].authenticated && key == s.nodes[Handshake.GROUND].key
            then heard == SecureHello.Learned(TruncateVector(position), TruncateVector(velocity))
                 && GreedyLoops.Carries(Entry(position, velocity, 0), Entry(heard.position, heard.velocity, 0))
            else heard == SecureHello.Ignored
  {
    hide Exec, Legal, AllAddressed, Initial, DistinctAddresses, Answered, Agreement, EncodeF, HelloBytes, InRange,
      TruncateVector, SecureHello.Aad, SecureHello.Iv, SecureHello.Ideal, SecureHello.Binds, GreedyLoops.Carries,
      SecureHello.ReceiveF;
    AddressedAgreement(s0, ls);
    var s := Exec(s0, ls);
    var n := AsReceiver(s.nodes[b]);
    var p := SecureHello.HelloPacket(uid, position, velocity);
    if !n.authenticated {
      UnauthenticatedIgnoresSealed(g, n, key, src, dst, p);
    } else {
      OneKey(s0, ls, b);
      if key == n.key {
        SecureHello.NeighbourLearns(g, n, src, dst, uid, position, velocity);
        GreedyLoops.CarriesTruncated(Entry(position, velocity, 0),
                                     Entry(TruncateVector(position), TruncateVector(velocity), 0));
      } else {
        SecureHello.OtherwiseIgnored(g, key, src, dst, p, n, uid, src, dst);
      }
    }
  }

  lemma UnauthenticatedIgnoresSealed(g: SecureHello.Gcm, n: SecureHello.Node, key: Handshake.Key, src: u32, dst: u32,
                                     p: SecureHello.Packet)
    requires n.secure && !n.authenticated && |p.bytes| == HELLO_SIZE + 1
    ensures SecureHello.ReceiveF(g, n, SecureHello.Aad(src, dst), SecureHello.WrapF(g, key, src, dst, p))
         == SecureHello.Ignored
  {
  }

  /** So any two authenticated nodes hear each other, whoever they are and however the run went. */
  lemma AuthenticatedHear(g: SecureHello.Gcm, s0: State, ls: seq<Label>, a: Handshake.NodeId, b: Handshake.NodeId,
                          src: u32, dst: u32, uid: u64, position: Vector, velocity: Vector)
    requires SecureHello.Ideal(g) && InRange(position, velocity) && EncodeF(position, velocity).Some?
    requires Initial(s0) && DistinctAddresses(s0) && Legal(s0, ls) && AllAddressed(s0, ls)
    requires a in Exec(s0, ls).nodes && Exec(s0, ls).nodes[a].authenticated
    requires b in Exec(s0, ls).nodes && Exec(s0, ls).nodes[b].authenticated
    ensures var s := Exec(s0, ls);
            SecureHello.ReceiveF(g, AsReceiver(s.nodes[b]), SecureHello.Aad(src, dst),
              SecureHello.WrapF(g, s.nodes[a].key, src, dst, SecureHello.HelloPacket(uid, position, velocity)))
            == SecureHello.Learned(TruncateVector(position), TruncateVector(velocity))
  {
    hide Exec, Legal, AllAddressed, Initial, DistinctAddresses, EncodeF, HelloBytes, InRange, TruncateVector,
      SecureHello.Aad, SecureHello.Iv, SecureHello.Ideal, SecureHello.ReceiveF;
    OneKey(s0, ls, a);
    OneKey(s0, ls, b);
    SecureHello.NeighbourLearns(g, AsReceiver(Exec(s0, ls).nodes[b]), src, dst, uid, position, velocity);
  }
}
