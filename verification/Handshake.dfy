/**
 The authentication handshake (aerorp-routing-protocol.cc) with ideal signatures and public-key
 encryption: what one node does with a message, and the bytes that are signed.
 */
module Handshake {
  import opened Wrappers
  import opened Hello

  type NodeId = nat
  type Bytes = seq<byte>

  /** Contents of a shared-key buffer. */
  type Key = seq<byte>

  /** 192.168.1.1 as an integer: the ground station's address. The identification of a sender is its
      address modulo this. */
  const BASE: u32 := 3232235777

  const GROUND: NodeId := 0

  /** Issued by the authority for the key pair of `owner`. */
  datatype Cert = Cert(owner: NodeId)

  /** What RSA makes of a key: 256 bytes, padded at random. */
  type Wire = b: seq<byte> | |b| == 256 witness Zeros(256)

  function Zeros(n: nat): (b: seq<byte>)
    ensures |b| == n
  {
    if n == 0 then [] else Zeros(n - 1) + [0]
  }

  /** `content` encrypted under the public key of `to`, as the bytes `wire`. */
  datatype Sealed = Sealed(to: NodeId, content: Key, wire: Wire)

  datatype Sign = Sign(signer: NodeId, data: Bytes)

  /** `to` is the address a message is sent to, `source` the one a request comes from. */
  datatype Message =
    | Request(to: u32, source: u32, cert: Cert, time: u64, rand: u32, ident: byte, sign: Sign)
    | Reply(to: u32, cert: Cert, time: u64, rand: u32, oldRand: u32, ident: byte, sealedKey: Sealed, sign: Sign)

  datatype Node = Node(id: NodeId, ip: u32, rand: u32, authenticated: bool, key: Key)

  // ---------------------------------------------------------------- signed bytes

  function AnBytes(time: u64, rand: u32, ident: byte): (b: Bytes)
    ensures |b| == 13
  {
    U64Bytes(time) + U32Bytes(rand) + [ident]
  }

  function GsBytes(time: u64, rand: u32, oldRand: u32, ident: byte, key: Wire): (b: Bytes)
    ensures |b| == 273
  {
    U64Bytes(time) + U32Bytes(rand) + U32Bytes(oldRand) + [ident] + key
  }

  method SetANData(timer: u64, randno: u32, identifier: byte) returns (anData: array<byte>)
    ensures anData[..] == AnBytes(timer, randno, identifier)
  {
    hide U64Bytes, U32Bytes;
    var size := 13;
    anData := new byte[size];
    for i := 0 to size - 5
      invariant forall k :: 0 <= k < i ==> anData[k] == U64Bytes(timer)[k]
    {
      anData[i] := U64Bytes(timer)[i];
    }
    for j := size - 5 to size - 1
      invariant forall k :: 0 <= k < size - 5 ==> anData[k] == U64Bytes(timer)[k]
      invariant forall k :: size - 5 <= k < j ==> anData[k] == U32Bytes(randno)[k - (size - 5)]
    {
      anData[j] := U32Bytes(randno)[j - (size - 5)];
    }
    anData[size - 1] := identifier;
  }

  method SetGSData(timer: u64, gsrandno: u32, anrandno: u32, identifier: byte, encryptedshkey: Wire)
    returns (gsData: array<byte>)
    ensures gsData[..] == GsBytes(timer, gsrandno, anrandno, identifier, encryptedshkey)
  {
    hide U64Bytes, U32Bytes;
    var size := 273;
    gsData := new byte[size];
    for i := 0 to size - 265
      invariant forall k :: 0 <= k < i ==> gsData[k] == U64Bytes(timer)[k]
    {
      gsData[i] := U64Bytes(timer)[i];
    }
    for j := size - 265 to size - 261
      invariant forall k :: 0 <= k < 8 ==> gsData[k] == U64Bytes(timer)[k]
      invariant forall k :: 8 <= k < j ==> gsData[k] == U32Bytes(gsrandno)[k - 8]
    {
      gsData[j] := U32Bytes(gsrandno)[j - (size - 265)];
    }
    for j := size - 261 to size - 257
      invariant forall k :: 0 <= k < 8 ==> gsData[k] == U64Bytes(timer)[k]
      invariant forall k :: 8 <= k < 12 ==> gsData[k] == U32Bytes(gsrandno)[k - 8]
      invariant forall k :: 12 <= k < j ==> gsData[k] == U32Bytes(anrandno)[k - 12]
    {
      gsData[j] := U32Bytes(anrandno)[j - (size - 261)];
    }
    gsData[size - 257] := identifier;
    ghost var front := gsData[..17];
    assert front == U64Bytes(timer) + U32Bytes(gsrandno) + U32Bytes(anrandno) + [identifier];
    for k := size - 256 to size
      invariant gsData[..17] == front
      invariant forall i :: 17 <= i < k ==> gsData[i] == encryptedshkey[i - 17]
    {
      gsData[k] := encryptedshkey[k - (size - 256)];
    }
    assert gsData[17..] == encryptedshkey;
    assert gsData[..] == gsData[..17] + gsData[17..];
  }

  lemma U32BytesInjective(v: u32, w: u32)
    requires U32Bytes(v) == U32Bytes(w)
    ensures v == w
  {
    U32RoundTrip(v, [0, 0, 0, 0]);
    U32RoundTrip(w, [0, 0, 0, 0]);
  }

  /** The signed bytes determine the fields: a valid signature covers each of them. */
  lemma AnBytesInjective(t: u64, r: u32, i: byte, t': u64, r': u32, i': byte)
    requires AnBytes(t, r, i) == AnBytes(t', r', i')
    ensures t == t' && r == r' && i == i'
  {
    hide U64Bytes, U32Bytes;
    var b, c := AnBytes(t, r, i), AnBytes(t', r', i');
    assert b[..8] == U64Bytes(t) && b[8..12] == U32Bytes(r) && b[12] == i;
    assert c[..8] == U64Bytes(t') && c[8..12] == U32Bytes(r') && c[12] == i';
    U64BytesInjective(t, t');
    U32BytesInjective(r, r');
  }

  lemma GsBytesInjective(t: u64, r: u32, o: u32, i: byte, k: Wire, t': u64, r': u32, o': u32, i': byte, k': Wire)
    requires GsBytes(t, r, o, i, k) == GsBytes(t', r', o', i', k')
    ensures t == t' && r == r' && o == o' && i == i' && k == k'
  {
    hide U64Bytes, U32Bytes;
    var b, c := GsBytes(t, r, o, i, k), GsBytes(t', r', o', i', k');
    assert b[..8] == U64Bytes(t) && b[8..12] == U32Bytes(r) && b[12..16] == U32Bytes(o) && b[16] == i && b[17..] == k;
    assert c[..8] == U64Bytes(t') && c[8..12] == U32Bytes(r') && c[12..16] == U32Bytes(o') && c[16] == i';
    assert c[17..] == k';
    U64BytesInjective(t, t');
    U32BytesInjective(r, r');
    U32BytesInjective(o, o');
  }

  // ---------------------------------------------------------------- one node

  /** static_cast to eight bits of the address modulo the base. */
  function Ident(ip: u32): byte {
    ip % BASE % 0x100
  }

  function RequestOf(n: Node, time: u64): Message {
    Request(BASE, n.ip, Cert(n.id), time, n.rand, 0, Sign(n.id, AnBytes(time, n.rand, 0)))
  }

  function ReplyOf(n: Node, to: u32, time: u64, owner: NodeId, oldRand: u32, ident: byte, wire: Wire): Message {
    Reply(to, Cert(n.id), time, n.rand, oldRand, ident, Sealed(owner, n.key, wire),
          Sign(n.id, GsBytes(time, n.rand, oldRand, ident, wire)))
  }

  /** The signature verifies against the certificate's key for the fields as received. */
  predicate SignOk(m: Message) {
    match m
    case Request(_, _, cert, time, rand, ident, sign) => sign == Sign(cert.owner, AnBytes(time, rand, ident))
    case Reply(_, cert, time, rand, oldRand, ident, k, sign) =>
      sign == Sign(cert.owner, GsBytes(time, rand, oldRand, ident, k.wire))
  }

  /** CheckPacketValidity. `timely` is the outcome of the timestamp test and `trusted` that of the certificate test. */
  predicate PacketOk(n: Node, m: Message, timely: bool, trusted: bool) {
    m.ident as int == n.id && trusted && timely && SignOk(m)
  }

  /** RSA decryption with the own key pair; a key sealed for somebody else leaves the buffer as it is. */
  function Decrypt(n: Node, k: Sealed): Key {
    if k.to == n.id then k.content else n.key
  }

  /** The node afterwards, and the reply it sends, with `wire` for the encrypted key. A reply that fails
      the test ends an authentication. */
  function ReceiveF(n: Node, m: Message, now: u64, timely: bool, trusted: bool, wire: Wire): (Node, Option<Message>) {
    match m
    case Request(_, source, cert, _, rand, _, _) =>
      if PacketOk(n, m, timely, trusted)
      then (n, Some(ReplyOf(n, source, now, cert.owner, rand, Ident(source), wire))) else (n, None)
    case Reply(_, _, _, _, oldRand, _, k, _) =>
      if PacketOk(n, m, timely, trusted) && oldRand == n.rand
      then (n.(key := Decrypt(n, k), authenticated := true), None)
      else (n.(authenticated := false), None)
  }

  class AuthNode {
    const id: NodeId
    const ip: u32
    const rand: u32
    var authenticationStatus: bool
    var sharedKey: Key

    function Value(): Node
      reads this
    {
      Node(id, ip, rand, authenticationStatus, sharedKey)
    }

    /** The ground station has a key and counts as authenticated, any other node does neither. */
    constructor (id: NodeId, ip: u32, rand: u32, key: Key)
      ensures Value() == Node(id, ip, rand, id == GROUND, key)
    {
      this.id, this.ip, this.rand := id, ip, rand;
      authenticationStatus, sharedKey := id == GROUND, key;
    }

    method SendAuthenticationRequestPacket(now: u64) returns (m: Message)
      ensures m == RequestOf(Value(), now)
    {
      var data := SetANData(now, rand, 0);
      m := Request(BASE, ip, Cert(id), now, rand, 0, Sign(id, data[..]));
    }

    method SendAuthenticationReplyPacket(to: u32, now: u64, owner: NodeId, oldRand: u32, ident: byte, wire: Wire)
      returns (m: Message)
      ensures m == ReplyOf(Value(), to, now, owner, oldRand, ident, wire)
    {
      var data := SetGSData(now, rand, oldRand, ident, wire);
      m := Reply(to, Cert(id), now, rand, oldRand, ident, Sealed(owner, sharedKey, wire), Sign(id, data[..]));
    }

    method RecvAERORP(m: Message, now: u64, timely: bool, trusted: bool, wire: Wire) returns (answer: Option<Message>)
      modifies this
      ensures (Value(), answer) == ReceiveF(old(Value()), m, now, timely, trusted, wire)
    {
      hide AnBytes, GsBytes;
      answer := None;
      var valid := m.ident as int == id && trusted && timely && SignOk(m);
      match m
      case Request(_, source, cert, _, rand, _, _) =>
        if valid {
          var reply := SendAuthenticationReplyPacket(source, now, cert.owner, rand, Ident(source), wire);
          answer := Some(reply);
        }
      case Reply(_, _, _, _, oldRand, _, k, _) =>
        if valid && oldRand == rand {
          if k.to == id {
            sharedKey := k.content;
          }
          authenticationStatus := true;
        } else {
          authenticationStatus := false;
        }
    }
  }

  /** Tampering: a request accepted with a signature made by its certificate's owner over other fields
      is a request with those fields. */
  lemma SignedFieldsMatch(n: Node, m: Message, timely: bool, trusted: bool, t: u64, r: u32, i: byte)
    requires m.Request? && PacketOk(n, m, timely, trusted) && m.sign.data == AnBytes(t, r, i)
    ensures m.time == t && m.rand == r && m.ident == i
  {
    AnBytesInjective(m.time, m.rand, m.ident, t, r, i);
  }

  /** A reply authenticates exactly when all of this holds; it then sets the key if that was sealed for the
      node. Any other reply ends an authentication and leaves the key. */
  lemma ReplyTakenIff(n: Node, m: Message, now: u64, timely: bool, trusted: bool, wire: Wire)
    requires m.Reply?
    ensures var (r, answer) := ReceiveF(n, m, now, timely, trusted, wire);
            && answer == None && r == n.(authenticated := r.authenticated, key := r.key)
            && (r.authenticated <==>
                  m.ident as int == n.id && timely && trusted && m.oldRand == n.rand && m.sign.signer == m.cert.owner
                  && m.sign.data == U64Bytes(m.time) + U32Bytes(m.rand) + U32Bytes(m.oldRand) + [m.ident]
                                    + m.sealedKey.wire)
            && r.key == if r.authenticated && m.sealedKey.to == n.id then m.sealedKey.content else n.key
  {
    hide U64Bytes, U32Bytes;
  }

  /** A request is answered exactly when all of this holds, to where it came from, with the key sealed for the
      node its certificate names; and it changes nothing else. */
  lemma RequestAnsweredIff(n: Node, m: Message, now: u64, timely: bool, trusted: bool, wire: Wire)
    requires m.Request?
    ensures var (r, answer) := ReceiveF(n, m, now, timely, trusted, wire);
            && r == n
            && (answer.Some? <==>
                  m.ident as int == n.id && timely && trusted && m.sign.signer == m.cert.owner
                  && m.sign.data == U64Bytes(m.time) + U32Bytes(m.rand) + [m.ident])
            && (answer.Some? ==>
                  var a := answer.value;
                  a.Reply? && a.to == m.source && a.cert == Cert(n.id) && a.time == now && a.oldRand == m.rand
                  && a.ident as int == m.source as int % 3232235777 % 256
                  && a.sealedKey == Sealed(m.cert.owner, n.key, wire)
                  && a.rand == n.rand && a.sign.signer == n.id)
  {
    hide U64Bytes, U32Bytes;
  }

  /** Tampering with a reply: one that authenticates was signed by its certificate's owner, and its fields are
      the ones that owner signed. */
  lemma SignedReplyMatches(n: Node, m: Message, now: u64, timely: bool, trusted: bool, wire: Wire,
                           t: u64, r: u32, o: u32, i: byte, w: Wire)
    requires m.Reply? && ReceiveF(n, m, now, timely, trusted, wire).0.authenticated
    requires m.sign.data == GsBytes(t, r, o, i, w)
    ensures m.sign.signer == m.cert.owner
    ensures m.time == t && m.rand == r && m.oldRand == o && m.ident == i && m.sealedKey.wire == w
  {
    GsBytesInjective(m.time, m.rand, m.oldRand, m.ident, m.sealedKey.wire, t, r, o, i, w);
  }

  /** A request's signature is never one of a reply. */
  lemma KindsDiffer(t: u64, r: u32, i: byte, t': u64, r': u32, o': u32, i': byte, k': Wire)
    ensures AnBytes(t, r, i) != GsBytes(t', r', o', i', k')
  {
    assert |AnBytes(t, r, i)| == 13 && |GsBytes(t', r', o', i', k')| == 273;
  }
}
