/**
 The sealed hello path: wrapping in RouteOutput and unwrapping in RecvAERORP
 (aerorp-routing-protocol.cc), over an ideal authenticated encryption.
 */
module SecureHello {
  import opened Wrappers
  import opened NeighborTable
  import opened Hello

  const TAG_SIZE := 16
  const TYPE_HELLO: byte := 1
  const TYPE_SECURE_HELLO: byte := 6

  type Bytes = seq<byte>

  /** seal(key, iv, aad, plain) gives cipher and tag; open(key, iv, aad, cipher, tag) the plain text. */
  datatype Gcm = Gcm(seal: (Bytes, Bytes, Bytes, Bytes) -> (Bytes, Bytes),
                     open: (Bytes, Bytes, Bytes, Bytes, Bytes) -> Option<Bytes>)

  /** Sections 7.1 and 7.2 of NIST SP 800-38D: what was sealed opens, and nothing else does. */
  ghost predicate Ideal(g: Gcm) {
    && (forall k, iv, a, p :: |g.seal(k, iv, a, p).0| == |p| && |g.seal(k, iv, a, p).1| == TAG_SIZE)
    && (forall k, iv, a, p :: g.open(k, iv, a, g.seal(k, iv, a, p).0, g.seal(k, iv, a, p).1) == Some(p))
    && (forall k, iv, a, c, t :: g.open(k, iv, a, c, t).Some? ==>
          g.seal(k, iv, a, g.open(k, iv, a, c, t).value) == (c, t))
  }

  /** What (key, iv, aad) sealed opens under nothing else. This is the forgery and commitment assumption
      for one sealed text; it cannot hold of all texts at once, because tags are shorter than keys. */
  ghost predicate Binds(g: Gcm, key: Bytes, iv: Bytes, aad: Bytes, plain: Bytes) {
    forall k, i, a :: (k, i, a) != (key, iv, aad) ==> Refuses(g, k, i, a, g.seal(key, iv, aad, plain))
  }

  predicate Refuses(g: Gcm, k: Bytes, i: Bytes, a: Bytes, sealed: (Bytes, Bytes)) {
    g.open(k, i, a, sealed.0, sealed.1) == None
  }

  /** An address in network order. */
  function AddressBytes(a: u32): (b: Bytes)
    ensures |b| == 4
  {
    var b := U32Bytes(a);
    [b[3], b[2], b[1], b[0]]
  }

  function Aad(src: u32, dst: u32): Bytes {
    AddressBytes(src) + AddressBytes(dst)
  }

  /** The packet uid, least significant byte first, then the positions 8 to 15. */
  function Iv(uid: u64): (b: Bytes)
    ensures |b| == 16
  {
    U64Bytes(uid) + [8, 9, 10, 11, 12, 13, 14, 15]
  }

  lemma AddressInjective(a: u32, b: u32)
    requires AddressBytes(a) == AddressBytes(b)
    ensures a == b
  {
    hide U32Bytes;
    var x, y := U32Bytes(a), U32Bytes(b);
    assert AddressBytes(a)[0] == x[3] && AddressBytes(a)[1] == x[2];
    assert AddressBytes(a)[2] == x[1] && AddressBytes(a)[3] == x[0];
    assert AddressBytes(b)[0] == y[3] && AddressBytes(b)[1] == y[2];
    assert AddressBytes(b)[2] == y[1] && AddressBytes(b)[3] == y[0];
    assert x == y;
    U32RoundTrip(a, x);
    U32RoundTrip(b, y);
  }

  /** The additional data determine both addresses. */
  lemma AadInjective(src: u32, dst: u32, src': u32, dst': u32)
    requires Aad(src, dst) == Aad(src', dst')
    ensures src == src' && dst == dst'
  {
    hide AddressBytes;
    assert Aad(src, dst)[..4] == AddressBytes(src) && Aad(src, dst)[4..] == AddressBytes(dst);
    assert Aad(src', dst')[..4] == AddressBytes(src') && Aad(src', dst')[4..] == AddressBytes(dst');
    AddressInjective(src, src');
    AddressInjective(dst, dst');
  }

  /** The initialisation vector determines the packet uid. */
  lemma IvInjective(uid: u64, uid': u64)
    requires Iv(uid) == Iv(uid')
    ensures uid == uid'
  {
    hide U64Bytes;
    assert Iv(uid)[..8] == U64Bytes(uid) && Iv(uid')[..8] == U64Bytes(uid');
    U64BytesInjective(uid, uid');
  }

  datatype Packet = Packet(uid: u64, bytes: Bytes)

  /** A packet of the hello's size, whatever it is, loses its type byte and is sealed. */
  function WrapF(g: Gcm, key: Bytes, src: u32, dst: u32, p: Packet): Packet
    requires |p.bytes| == HELLO_SIZE + 1
  {
    var (c, t) := g.seal(key, Iv(p.uid), Aad(src, dst), p.bytes[1..]);
    p.(bytes := [TYPE_SECURE_HELLO] + (c + t))
  }

  datatype Node = Node(secure: bool, authenticated: bool, key: Bytes)

  /** Unset: the position is known, the velocity was never assigned. */
  datatype Outcome = Ignored | Malformed | Unset(position: Vector) | Other | Learned(position: Vector, velocity: Vector)

  function LearnF(h: HelloHeader): Outcome {
    match VelocityOf(h)
    case None => Unset(PositionOf(h))
    case Some(v) => Learned(PositionOf(h), v)
  }

  /** `checked` is the additional data RouteInput kept from the IP header. */
  function ReceiveF(g: Gcm, n: Node, checked: Bytes, p: Packet): Outcome {
    if p.bytes == [] then Malformed
    else
      var kind, body := p.bytes[0], p.bytes[1..];
      if kind < 1 || 7 < kind then Ignored
      else if !n.authenticated && n.secure && (kind == 1 || kind == 2 || kind == 6 || kind == 7) then Ignored
      else if kind == TYPE_HELLO then
        if |body| < HELLO_SIZE then Malformed else LearnF(HelloOf(body[..HELLO_SIZE]))
      else if kind == TYPE_SECURE_HELLO then
        if |body| < HELLO_SIZE + TAG_SIZE then Malformed
        else
          match g.open(n.key, Iv(p.uid), checked, body[..HELLO_SIZE], body[HELLO_SIZE..HELLO_SIZE + TAG_SIZE])
          case None => Ignored
          case Some(text) => if |text| == HELLO_SIZE then LearnF(HelloOf(text)) else Malformed
      else Other
  }

  // ---------------------------------------------------------------- the loops

  method FillAad(src: u32, dst: u32) returns (aad: array<byte>)
    ensures aad[..] == Aad(src, dst)
  {
    hide U32Bytes;
    var srcAdd, dstAdd := AddressBytes(src), AddressBytes(dst);
    aad := new byte[8];
    for i := 0 to 4
      invariant forall k :: 0 <= k < i ==> aad[k] == srcAdd[k]
    {
      aad[i] := srcAdd[i];
    }
    for j := 4 to 8
      invariant forall k :: 0 <= k < 4 ==> aad[k] == srcAdd[k]
      invariant forall k :: 4 <= k < j ==> aad[k] == dstAdd[k - 4]
    {
      aad[j] := dstAdd[j - 4];
    }
  }

  method FillIv(packetid: u64) returns (iv: array<byte>)
    ensures iv[..] == Iv(packetid)
  {
    hide U64Bytes;
    iv := new byte[16];
    for i := 0 to 8
      invariant forall k :: 0 <= k < i ==> iv[k] == U64Bytes(packetid)[k]
    {
      iv[i] := U64Bytes(packetid)[i];
    }
    for i := 8 to 16
      invariant forall k :: 0 <= k < 8 ==> iv[k] == U64Bytes(packetid)[k]
      invariant forall k :: 8 <= k < i ==> iv[k] == k
    {
      iv[i] := i as byte;
    }
  }

  /** The hello branch of RouteOutput in security mode. */
  method WrapHello(g: Gcm, key: Bytes, src: u32, dst: u32, p: Packet) returns (r: Packet)
    requires |p.bytes| == HELLO_SIZE + 1
    ensures r == WrapF(g, key, src, dst, p)
  {
    hide Aad, Iv;
    var aad := FillAad(src, dst);
    var iv := FillIv(p.uid);
    var (cipher, tag) := g.seal(key, iv[..], aad[..], p.bytes[1..]);
    r := Packet(p.uid, [TYPE_SECURE_HELLO] + (cipher + tag));
  }

  /** The hello branches of RecvAERORP, down to the neighbour table. `garbage` is what the three velocity
      variables hold when no branch assigns them. */
  method RecvAERORP(g: Gcm, n: Node, checked: Bytes, p: Packet, sender: Address, now: int,
                    garbage: Vector, m: NeighborTable)
    returns (outcome: Outcome)
    modifies m
    ensures outcome == ReceiveF(g, n, checked, p)
    ensures m.table == match outcome
                       case Learned(pos, vel) => old(m.table)[sender := Entry(pos, vel, now)]
                       case Unset(pos) => old(m.table)[sender := Entry(pos, garbage, now)]
                       case _ => old(m.table)
  {
    hide HelloOf, HelloBytes, Iv;
    if p.bytes == [] {
      return Malformed;
    }
    var kind, body := p.bytes[0], p.bytes[1..];
    if kind < 1 || 7 < kind {
      return Ignored;
    }
    if !n.authenticated && n.secure && (kind == 1 || kind == 2 || kind == 6 || kind == 7) {
      return Ignored;
    }
    var text := body;
    if kind == TYPE_HELLO {
      if |body| < HELLO_SIZE {
        return Malformed;
      }
      text := body[..HELLO_SIZE];
    } else if kind == TYPE_SECURE_HELLO {
      if |body| < HELLO_SIZE + TAG_SIZE {
        return Malformed;
      }
      var iv := FillIv(p.uid);
      var check := g.open(n.key, iv[..], checked, body[..HELLO_SIZE], body[HELLO_SIZE..HELLO_SIZE + TAG_SIZE]);
      if check == None {
        return Ignored;
      }
      text := check.value;
      if |text| != HELLO_SIZE {
        return Malformed;
      }
    } else {
      return Other;
    }
    var i := new Iterator(text);
    var h := Deserialize(i);
    outcome := LearnF(h);
    if outcome.Learned? {
      m.AddEntry(now, sender, outcome.position, outcome.velocity);
    } else if outcome.Unset? {
      m.AddEntry(now, sender, outcome.position, garbage);
    }
  }

  // ---------------------------------------------------------------- results

  predicate IsHello(p: Packet) {
    |p.bytes| == HELLO_SIZE + 1 && p.bytes[0] == TYPE_HELLO
  }

  /** The sealed path refines the plain one: with the same key, uid and addresses a node makes of a wrapped
      hello exactly what it makes of the hello itself. */
  lemma SealedRefinesPlain(g: Gcm, n: Node, src: u32, dst: u32, other: Bytes, p: Packet)
    requires Ideal(g) && IsHello(p)
    ensures ReceiveF(g, n, Aad(src, dst), WrapF(g, n.key, src, dst, p)) == ReceiveF(g, n, other, p)
  {
    hide HelloOf, Aad, Iv;
    var w := WrapF(g, n.key, src, dst, p);
    var (c, t) := g.seal(n.key, Iv(p.uid), Aad(src, dst), p.bytes[1..]);
    assert w.bytes[1..] == c + t && (c + t)[..HELLO_SIZE] == c && (c + t)[HELLO_SIZE..HELLO_SIZE + TAG_SIZE] == t;
    assert p.bytes[1..][..HELLO_SIZE] == p.bytes[1..];
  }

  /** The wrapped packet has type 6, and neither the size of a hello, whose type is 1, nor that of a
      ground-station packet, so it is not wrapped again. */
  lemma WrappedOnce(g: Gcm, key: Bytes, src: u32, dst: u32, p: Packet)
    requires Ideal(g) && |p.bytes| == HELLO_SIZE + 1
    ensures var w := WrapF(g, key, src, dst, p).bytes;
            |w| == 42 && w[0] == 6 && |p.bytes| == 26 && 42 != 26 && 42 != 44 + 1 && (IsHello(p) <==> p.bytes[0] == 1)
  {
    hide Aad, Iv;
    var (c, t) := g.seal(key, Iv(p.uid), Aad(src, dst), p.bytes[1..]);
    assert |c| == HELLO_SIZE && |t| == TAG_SIZE;
  }

  /** The hello of a node at a position with a velocity. */
  function HelloPacket(uid: u64, position: Vector, velocity: Vector): (p: Packet)
    requires EncodeF(position, velocity).Some?
    ensures IsHello(p)
  {
    Packet(uid, [TYPE_HELLO] + HelloBytes(EncodeF(position, velocity).value))
  }

  /** Who hears a hello: a node learns the sender's position and velocity, truncated toward zero, exactly when it
      is authenticated or not in security mode, and ignores the hello otherwise. */
  lemma PlainLearnsIff(g: Gcm, n: Node, checked: Bytes, uid: u64, position: Vector, velocity: Vector)
    requires InRange(position, velocity)
    ensures EncodeF(position, velocity).Some?
    ensures ReceiveF(g, n, checked, HelloPacket(uid, position, velocity))
         == if n.authenticated || !n.secure
            then Learned(TruncateVector(position), TruncateVector(velocity)) else Ignored
  {
    hide EncodeF, HelloBytes, HelloOf, InRange, TruncateVector, PositionOf, VelocityOf;
    HelloIsTruncation(position, velocity);
    var b := HelloBytes(EncodeF(position, velocity).value);
    var p := HelloPacket(uid, position, velocity);
    assert p.bytes[1..] == b && b[..HELLO_SIZE] == b;
  }

  /** Whatever header arrives: the position is taken as it is, and the velocity is unset exactly for a sign code
      above seven. */
  lemma HeaderTaken(g: Gcm, n: Node, checked: Bytes, uid: u64, h: HelloHeader)
    requires n.authenticated || !n.secure
    ensures var out := ReceiveF(g, n, checked, Packet(uid, [TYPE_HELLO] + HelloBytes(h)));
            && (out.Unset? <==> 7 < h.velSign) && (out.Learned? <==> h.velSign <= 7)
            && out.position == Vector(h.posx as real, h.posy as real, h.posz as real)
            && (out.Learned? ==> VelocityOf(h) == Some(out.velocity))
  {
    hide HelloBytes, HelloOf;
    var b := HelloBytes(h);
    var p := Packet(uid, [TYPE_HELLO] + b);
    assert p.bytes[1..] == b && b[..HELLO_SIZE] == b;
    HelloRoundTrip(h, b);
  }

  /** End to end: the same for the sealed hello of a node with the same key. */
  lemma NeighbourLearns(g: Gcm, n: Node, src: u32, dst: u32, uid: u64, position: Vector, velocity: Vector)
    requires Ideal(g) && InRange(position, velocity)
    ensures EncodeF(position, velocity).Some?
    ensures ReceiveF(g, n, Aad(src, dst), WrapF(g, n.key, src, dst, HelloPacket(uid, position, velocity)))
         == if n.authenticated || !n.secure
            then Learned(TruncateVector(position), TruncateVector(velocity)) else Ignored
  {
    hide Aad, Iv, EncodeF, HelloBytes, InRange, Ideal, TruncateVector, WrapF, ReceiveF;
    PlainLearnsIff(g, n, [], uid, position, velocity);
    SealedRefinesPlain(g, n, src, dst, [], HelloPacket(uid, position, velocity));
  }

  /** Conversely a sealed hello that changes the table was sealed, under the receiver's key, for this uid
      and these addresses, from a hello that the plain path would have taken the same way. */
  lemma LearnedWasSealed(g: Gcm, n: Node, src: u32, dst: u32, p: Packet)
    requires Ideal(g) && |p.bytes| == 1 + HELLO_SIZE + TAG_SIZE && p.bytes[0] == TYPE_SECURE_HELLO
    requires ReceiveF(g, n, Aad(src, dst), p).Learned?
    ensures exists q: Packet :: IsHello(q) && q.uid == p.uid && p == WrapF(g, n.key, src, dst, q)
                                && ReceiveF(g, n, [], q) == ReceiveF(g, n, Aad(src, dst), p)
  {
    hide HelloOf, Aad, Iv;
    var body := p.bytes[1..];
    var c, t := body[..HELLO_SIZE], body[HELLO_SIZE..HELLO_SIZE + TAG_SIZE];
    var text := g.open(n.key, Iv(p.uid), Aad(src, dst), c, t).value;
    var q := Packet(p.uid, [TYPE_HELLO] + text);
    assert q.bytes[1..] == text && text[..HELLO_SIZE] == text;
    assert body == c + t && p.bytes == [TYPE_SECURE_HELLO] + body;
    assert p == WrapF(g, n.key, src, dst, q);
  }

  /** A wrapped hello is ignored under any other key, uid or pair of addresses. */
  lemma OtherwiseIgnored(g: Gcm, key: Bytes, src: u32, dst: u32, p: Packet, n: Node, uid: u64, src': u32, dst': u32)
    requires Ideal(g) && |p.bytes| == HELLO_SIZE + 1 && Binds(g, key, Iv(p.uid), Aad(src, dst), p.bytes[1..])
    requires n.key != key || uid != p.uid || src' != src || dst' != dst
    ensures ReceiveF(g, n, Aad(src', dst'), WrapF(g, key, src, dst, p).(uid := uid)) == Ignored
  {
    hide HelloOf, Aad, Iv;
    if uid != p.uid && Iv(uid) == Iv(p.uid) {
      IvInjective(uid, p.uid);
    }
    if (src' != src || dst' != dst) && Aad(src', dst') == Aad(src, dst) {
      AadInjective(src', dst', src, dst);
    }
    var (c, t) := g.seal(key, Iv(p.uid), Aad(src, dst), p.bytes[1..]);
    var body := WrapF(g, key, src, dst, p).bytes[1..];
    assert body == c + t && body[..HELLO_SIZE] == c && body[HELLO_SIZE..HELLO_SIZE + TAG_SIZE] == t;
    assert Refuses(g, n.key, Iv(uid), Aad(src', dst'), g.seal(key, Iv(p.uid), Aad(src, dst), p.bytes[1..]));
  }

  /** Both assumptions can be met together. */
  lemma AssumptionsMet(key: Bytes, iv: Bytes, aad: Bytes, plain: Bytes) returns (g: Gcm)
    ensures Ideal(g) && Binds(g, key, iv, aad, plain)
  {
    var ones, zeros := seq(16, i => 1 as byte), seq(16, i => 0 as byte);
    assert ones[0] != zeros[0];
    var tag := (k, i, a, p) => if (k, i, a, p) == (key, iv, aad, plain) then ones else zeros;
    g := Gcm((k, i, a, p) => (p, tag(k, i, a, p)),
             (k, i, a, c, t) => if t == tag(k, i, a, c) then Some(c) else None);
  }

  /** A node in security mode that is not authenticated ignores four kinds of packets and nothing else of the known
      ones; the hello, 1, and the sealed hello, 6, are among them. */
  lemma KindsIgnored(g: Gcm, n: Node, checked: Bytes, p: Packet)
    requires p.bytes != [] && 1 <= p.bytes[0] <= 7 && p.bytes[0] != 1 && p.bytes[0] != 6
    ensures ReceiveF(g, n, checked, p)
         == if n.secure && !n.authenticated && (p.bytes[0] == 2 || p.bytes[0] == 7) then Ignored else Other
  {
  }

  /** A node in security mode that is not authenticated learns nothing from any hello. */
  lemma UnauthenticatedIgnores(g: Gcm, n: Node, checked: Bytes, p: Packet)
    requires n.secure && !n.authenticated
    ensures !ReceiveF(g, n, checked, p).Learned? && !ReceiveF(g, n, checked, p).Unset?
  {
  }

  /** The additional data hold both addresses most significant byte first, the source before the destination. */
  lemma AadLayout(src: u32, dst: u32)
    ensures var a := Aad(src, dst);
            |a| == 8 && LittleEndian(a[3], a[2], a[1], a[0]) == src
            && LittleEndian(a[7], a[6], a[5], a[4]) == dst
  {
    hide U32Bytes;
    U32Is(src);
    U32Is(dst);
  }

  /** The vector holds the packet uid least significant byte first, and then the positions themselves. */
  lemma IvLayout(uid: u64)
    ensures var iv := Iv(uid);
            U32Of(iv[..4]) + 4_294_967_296 * U32Of(iv[4..8]) == uid && forall k :: 8 <= k < 16 ==> iv[k] == k
  {
    hide U32Bytes, U32Of;
    U64Is(uid);
    assert Iv(uid)[..4] == U64Bytes(uid)[..4] && Iv(uid)[4..8] == U64Bytes(uid)[4..];
  }
}
