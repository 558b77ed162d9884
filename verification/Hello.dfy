/**
 The hello message: its 25 bytes (aerorp-packet.cc) and the eight-way velocity sign with which
 SendHello encodes a real velocity and RecvAERORP decodes it (aerorp-routing-protocol.cc).
 */
module Hello {
  import opened Wrappers
  import opened NeighborTable

  type byte = x: int | 0 <= x < 256
  type u32 = x: int | 0 <= x < 0x1_0000_0000
  type u64 = x: int | 0 <= x < 0x1_0000_0000_0000_0000

  datatype HelloHeader = HelloHeader(posx: u32, posy: u32, posz: u32, velSign: byte, velx: u32, vely: u32, velz: u32)

  const HELLO_SIZE := 25

  // ---------------------------------------------------------------- bytes

  /** Least significant byte first. */
  function U32Bytes(v: u32): (b: seq<byte>)
    ensures |b| == 4
  {
    var (v1, v2, v3) := (v / 0x100, v / 0x100 / 0x100, v / 0x100 / 0x100 / 0x100);
    [v % 0x100, v1 % 0x100, v2 % 0x100, v3]
  }

  function Weighed(low: byte, high: int): int {
    low + 0x100 * high
  }

  function U32Of(b: seq<byte>): u32
    requires |b| == 4
  {
    Weighed(b[0], Weighed(b[1], Weighed(b[2], b[3])))
  }

  lemma WeighedDigits(low: byte, high: nat)
    ensures Weighed(low, high) % 0x100 == low && Weighed(low, high) / 0x100 == high
  {
  }

  lemma WeighedWhole(v: nat)
    ensures Weighed(v % 0x100, v / 0x100) == v
  {
  }

  lemma U32RoundTrip(v: u32, b: seq<byte>)
    requires |b| == 4
    ensures U32Of(U32Bytes(v)) == v && U32Bytes(U32Of(b)) == b
  {
    hide Weighed;
    WeighedWhole(v);
    WeighedWhole(v / 0x100);
    WeighedWhole(v / 0x100 / 0x100);
    WeighedDigits(b[2], b[3]);
    WeighedNat(b[2], b[3]);
    WeighedDigits(b[1], Weighed(b[2], b[3]));
    WeighedNat(b[1], Weighed(b[2], b[3]));
    WeighedDigits(b[0], Weighed(b[1], Weighed(b[2], b[3])));
  }

  lemma WeighedNat(low: byte, high: nat)
    ensures 0 <= Weighed(low, high)
  {
  }

  function U64Bytes(v: u64): (b: seq<byte>)
    ensures |b| == 8
  {
    U32Bytes(v % 0x1_0000_0000) + U32Bytes(v / 0x1_0000_0000)
  }

  lemma U64BytesInjective(v: u64, w: u64)
    requires U64Bytes(v) == U64Bytes(w)
    ensures v == w
  {
    hide U32Bytes, U32Of;
    assert U64Bytes(v)[..4] == U32Bytes(v % 0x1_0000_0000) && U64Bytes(v)[4..] == U32Bytes(v / 0x1_0000_0000);
    assert U64Bytes(w)[..4] == U32Bytes(w % 0x1_0000_0000) && U64Bytes(w)[4..] == U32Bytes(w / 0x1_0000_0000);
    U32RoundTrip(v % 0x1_0000_0000, [0, 0, 0, 0]);
    U32RoundTrip(w % 0x1_0000_0000, [0, 0, 0, 0]);
    U32RoundTrip(v / 0x1_0000_0000, [0, 0, 0, 0]);
    U32RoundTrip(w / 0x1_0000_0000, [0, 0, 0, 0]);
  }

  function HelloBytes(h: HelloHeader): (b: seq<byte>)
    ensures |b| == HELLO_SIZE
  {
    U32Bytes(h.posx) + U32Bytes(h.posy) + U32Bytes(h.posz) + [h.velSign]
    + U32Bytes(h.velx) + U32Bytes(h.vely) + U32Bytes(h.velz)
  }

  function HelloOf(b: seq<byte>): HelloHeader
    requires |b| == HELLO_SIZE
  {
    HelloHeader(U32Of(b[0..4]), U32Of(b[4..8]), U32Of(b[8..12]), b[12],
                U32Of(b[13..17]), U32Of(b[17..21]), U32Of(b[21..25]))
  }

  /** A buffer iterator. */
  class Iterator {
    var data: seq<byte>
    var current: nat

    constructor (data: seq<byte>)
      ensures this.data == data && current == 0
    {
      this.data, current := data, 0;
    }

    method WriteU8(v: byte)
      requires current < |data|
      modifies this
      ensures current == old(current) + 1 && data == old(data)[old(current) := v]
    {
      data := data[current := v];
      current := current + 1;
    }

    method WriteU32(v: u32)
      requires current + 4 <= |data|
      modifies this
      ensures current == old(current) + 4
      ensures data == old(data)[..old(current)] + U32Bytes(v) + old(data)[old(current) + 4..]
    {
      WriteU8(v % 0x100);
      WriteU8(v / 0x100 % 0x100);
      WriteU8(v / 0x100 / 0x100 % 0x100);
      WriteU8(v / 0x100 / 0x100 / 0x100);
    }

    method ReadU8() returns (v: byte)
      requires current < |data|
      modifies `current
      ensures current == old(current) + 1 && v == data[old(current)]
    {
      v := data[current];
      current := current + 1;
    }

    method ReadU32() returns (v: u32)
      requires current + 4 <= |data|
      modifies `current
      ensures current == old(current) + 4 && v == U32Of(data[old(current)..old(current) + 4])
    {
      v := U32Of(data[current..current + 4]);
      current := current + 4;
    }
  }

  method Serialize(h: HelloHeader, i: Iterator)
    requires i.current == 0 && |i.data| == HELLO_SIZE
    modifies i
    ensures i.data == HelloBytes(h)
  {
    hide U32Bytes;
    i.WriteU32(h.posx);
    i.WriteU32(h.posy);
    i.WriteU32(h.posz);
    assert i.data[..12] == U32Bytes(h.posx) + U32Bytes(h.posy) + U32Bytes(h.posz);
    i.WriteU8(h.velSign);
    assert i.data[..13] == U32Bytes(h.posx) + U32Bytes(h.posy) + U32Bytes(h.posz) + [h.velSign];
    i.WriteU32(h.velx);
    i.WriteU32(h.vely);
    i.WriteU32(h.velz);
  }

  method Deserialize(i: Iterator) returns (h: HelloHeader)
    requires i.current == 0 && |i.data| == HELLO_SIZE
    modifies i`current
    ensures h == HelloOf(i.data) && i.current == HELLO_SIZE
  {
    var px := i.ReadU32();
    var py := i.ReadU32();
    var pz := i.ReadU32();
    var sign := i.ReadU8();
    var vx := i.ReadU32();
    var vy := i.ReadU32();
    var vz := i.ReadU32();
    h := HelloHeader(px, py, pz, sign, vx, vy, vz);
  }

  /** Headers and 25-byte strings are in bijection. */
  lemma HelloRoundTrip(h: HelloHeader, b: seq<byte>)
    requires |b| == HELLO_SIZE
    ensures HelloOf(HelloBytes(h)) == h && HelloBytes(HelloOf(b)) == b
  {
    hide U32Of, U32Bytes;
    U32RoundTrip(h.posx, b[0..4]);
    U32RoundTrip(h.posy, b[4..8]);
    U32RoundTrip(h.posz, b[8..12]);
    U32RoundTrip(h.velx, b[13..17]);
    U32RoundTrip(h.vely, b[17..21]);
    U32RoundTrip(h.velz, b[21..25]);
    HelloPieces(h);
    assert b == b[0..4] + b[4..8] + b[8..12] + [b[12]] + b[13..17] + b[17..21] + b[21..25];
  }

  lemma HelloPieces(h: HelloHeader)
    ensures var b := HelloBytes(h);
            && b[0..4] == U32Bytes(h.posx) && b[4..8] == U32Bytes(h.posy) && b[8..12] == U32Bytes(h.posz)
            && b[12] == h.velSign
            && b[13..17] == U32Bytes(h.velx) && b[17..21] == U32Bytes(h.vely) && b[21..25] == U32Bytes(h.velz)
  {
    hide U32Bytes;
  }

  // ---------------------------------------------------------------- encoding

  /** Toward zero. */
  function Truncate(v: real): int {
    if v < 0.0 then -(-v).Floor else v.Floor
  }

  /** The whole number next to the value on the side of zero. */
  lemma TruncateIs(v: real)
    ensures 0.0 <= v ==> Truncate(v) as real <= v < (Truncate(v) + 1) as real
    ensures v < 0.0 ==> (Truncate(v) - 1) as real < v <= Truncate(v) as real
  {
  }

  function TruncateVector(v: Vector): Vector {
    Vector(Truncate(v.x) as real, Truncate(v.y) as real, Truncate(v.z) as real)
  }

  /** Conversion of a double to uint32_t; outside of its range the result is undefined. */
  function ToU32(v: real): Option<u32> {
    if -1.0 < v < 4294967296.0 then Some(Truncate(v)) else None
  }

  function Magnitude(v: real): Option<u32> {
    ToU32(if v < 0.0 then -1.0 * v else v)
  }

  /** The code of the three signs. */
  function Sign(v: Vector): byte {
    match (v.x < 0.0, v.y < 0.0, v.z < 0.0)
    case (false, false, false) => 0
    case (true, true, true) => 1
    case (true, true, false) => 2
    case (true, false, true) => 3
    case (false, true, true) => 4
    case (true, false, false) => 5
    case (false, true, false) => 6
    case (false, false, true) => 7
  }

  /** None: some conversion is undefined. */
  function EncodeF(p: Vector, v: Vector): Option<HelloHeader> {
    match (ToU32(p.x), ToU32(p.y), ToU32(p.z), Magnitude(v.x), Magnitude(v.y), Magnitude(v.z))
    case (Some(px), Some(py), Some(pz), Some(vx), Some(vy), Some(vz)) =>
      Some(HelloHeader(px, py, pz, Sign(v), vx, vy, vz))
    case _ => None
  }

  /** SendHello up to the header. */
  method SendHello(p: Vector, v: Vector) returns (h: Option<HelloHeader>)
    ensures h == EncodeF(p, v)
  {
    var sign: byte := 0;
    var x, y, z := v.x, v.y, v.z;
    if v.x < 0.0 || v.y < 0.0 || v.z < 0.0 {
      if v.x < 0.0 && v.y < 0.0 && v.z < 0.0 {
        sign, x, y, z := 1, -1.0 * v.x, -1.0 * v.y, -1.0 * v.z;
      }
      if v.x < 0.0 && v.y < 0.0 && v.z >= 0.0 {
        sign, x, y, z := 2, -1.0 * v.x, -1.0 * v.y, v.z;
      }
      if v.x < 0.0 && v.y >= 0.0 && v.z < 0.0 {
        sign, x, y, z := 3, -1.0 * v.x, v.y, -1.0 * v.z;
      }
      if v.x >= 0.0 && v.y < 0.0 && v.z < 0.0 {
        sign, x, y, z := 4, v.x, -1.0 * v.y, -1.0 * v.z;
      }
      if v.x < 0.0 && v.y >= 0.0 && v.z >= 0.0 {
        sign, x, y, z := 5, -1.0 * v.x, v.y, v.z;
      }
      if v.x >= 0.0 && v.y < 0.0 && v.z >= 0.0 {
        sign, x, y, z := 6, v.x, -1.0 * v.y, v.z;
      }
      if v.x >= 0.0 && v.y >= 0.0 && v.z < 0.0 {
        sign, x, y, z := 7, v.x, v.y, -1.0 * v.z;
      }
    } else {
      sign, x, y, z := 0, v.x, v.y, v.z;
    }
    match (ToU32(p.x), ToU32(p.y), ToU32(p.z), ToU32(x), ToU32(y), ToU32(z))
    case (Some(px), Some(py), Some(pz), Some(vx), Some(vy), Some(vz)) =>
      h := Some(HelloHeader(px, py, pz, sign, vx, vy, vz));
    case _ => h := None;
  }

  // ---------------------------------------------------------------- decoding

  function PositionOf(h: HelloHeader): Vector {
    Vector(h.posx as real, h.posy as real, h.posz as real)
  }

  /** A code above seven leaves the velocity unset. */
  function VelocityOf(h: HelloHeader): Option<Vector> {
    var x, y, z := h.velx as real, h.vely as real, h.velz as real;
    match h.velSign
    case 0 => Some(Vector(x, y, z))
    case 1 => Some(Vector(-1.0 * x, -1.0 * y, -1.0 * z))
    case 2 => Some(Vector(-1.0 * x, -1.0 * y, z))
    case 3 => Some(Vector(-1.0 * x, y, -1.0 * z))
    case 4 => Some(Vector(x, -1.0 * y, -1.0 * z))
    case 5 => Some(Vector(-1.0 * x, y, z))
    case 6 => Some(Vector(x, -1.0 * y, z))
    case 7 => Some(Vector(x, y, -1.0 * z))
    case _ => None
  }

  predicate InRange(p: Vector, v: Vector) {
    && -1.0 < p.x < 4294967296.0 && -1.0 < p.y < 4294967296.0 && -1.0 < p.z < 4294967296.0
    && -4294967296.0 < v.x < 4294967296.0 && -4294967296.0 < v.y < 4294967296.0 && -4294967296.0 < v.z < 4294967296.0
  }

  lemma MagnitudeIs(v: real)
    ensures Magnitude(v).Some? <==> -4294967296.0 < v < 4294967296.0
    ensures Magnitude(v).Some? ==>
      Truncate(v) as real == (if v < 0.0 then -1.0 else 1.0) * Magnitude(v).value as real
  {
  }

  /** What a neighbour decodes is the sender's position and velocity with each component truncated toward
      zero, for all eight sign patterns; the header is defined exactly for components in range. */
  lemma HelloIsTruncation(p: Vector, v: Vector)
    ensures EncodeF(p, v).Some? <==> InRange(p, v)
    ensures InRange(p, v) ==>
      var h := HelloOf(HelloBytes(EncodeF(p, v).value));
      PositionOf(h) == TruncateVector(p) && VelocityOf(h) == Some(TruncateVector(v))
  {
    hide Magnitude, Truncate, HelloOf, HelloBytes;
    MagnitudeIs(v.x);
    MagnitudeIs(v.y);
    MagnitudeIs(v.z);
    if InRange(p, v) {
      var h := EncodeF(p, v).value;
      HelloRoundTrip(h, HelloBytes(h));
    }
  }

  // ---------------------------------------------------------------- the layout

  /** The number with these bytes, least significant first. */
  function LittleEndian(b0: int, b1: int, b2: int, b3: int): int {
    b0 + 256 * b1 + 65_536 * b2 + 16_777_216 * b3
  }

  lemma U32Is(v: u32)
    ensures var b := U32Bytes(v); LittleEndian(b[0], b[1], b[2], b[3]) == v
  {
  }

  lemma U64Is(v: u64)
    ensures var b := U64Bytes(v);
            U32Of(b[..4]) + 4_294_967_296 * U32Of(b[4..]) == v
  {
    hide U32Bytes, U32Of;
    assert U64Bytes(v)[..4] == U32Bytes(v % 0x1_0000_0000) && U64Bytes(v)[4..] == U32Bytes(v / 0x1_0000_0000);
    U32RoundTrip(v % 0x1_0000_0000, [0, 0, 0, 0]);
    U32RoundTrip(v / 0x1_0000_0000, [0, 0, 0, 0]);
  }

  /** Where the fields of a hello lie: three position components, the sign code, three speeds. */
  lemma HelloLayout(h: HelloHeader)
    ensures var b := HelloBytes(h);
            && LittleEndian(b[0], b[1], b[2], b[3]) == h.posx
            && LittleEndian(b[4], b[5], b[6], b[7]) == h.posy
            && LittleEndian(b[8], b[9], b[10], b[11]) == h.posz
            && b[12] == h.velSign
            && LittleEndian(b[13], b[14], b[15], b[16]) == h.velx
            && LittleEndian(b[17], b[18], b[19], b[20]) == h.vely
            && LittleEndian(b[21], b[22], b[23], b[24]) == h.velz
  {
    hide U32Bytes;
    U32Is(h.posx);
    U32Is(h.posy);
    U32Is(h.posz);
    U32Is(h.velx);
    U32Is(h.vely);
    U32Is(h.velz);
  }

  /** Which components are below zero under each code. */
  lemma SignIs(v: Vector)
    ensures var (x, y, z) := (v.x < 0.0, v.y < 0.0, v.z < 0.0);
            && (Sign(v) == 0 <==> !x && !y && !z) && (Sign(v) == 1 <==> x && y && z)
            && (Sign(v) == 2 <==> x && y && !z) && (Sign(v) == 3 <==> x && !y && z)
            && (Sign(v) == 4 <==> !x && y && z) && (Sign(v) == 5 <==> x && !y && !z)
            && (Sign(v) == 6 <==> !x && y && !z) && (Sign(v) == 7 <==> !x && !y && z)
  {
  }
}
