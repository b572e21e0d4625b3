/**
 * The fixed-point wire codec of the field-state messages.
 *
 * Every scalar is sent as one unsigned byte. Floats are sent at 0.5
 * precision (twice the value, rounded, capped at 254), integers are
 * rounded and capped at 254. Numbers are exact `real`s here, not IEEE
 * doubles: the point is the quantisation arithmetic.
 */
module Messages {

  /** One byte of a packed string, as `struct` packs and unpacks the 'B' format. */
  type Byte = b: int | 0 <= b < 256

  /** The ways `struct.pack` / `struct.unpack` / `struct.unpack_from` fail here. */
  datatype CodecError =
    | ByteOutOfRange(value: int)                  // 'B' packs only 0..255
    | WrongLength(expected: nat, actual: nat)     // `unpack` needs exactly this many bytes
    | BufferTooShort(expected: nat, actual: nat)  // `unpack_from` needs at least this many

  datatype Result<T> = Ok(value: T) | Err(error: CodecError)

  /** The largest value the compression ever produces; 255 is never emitted. */
  const MAX_PACKED: int := 254

  /** Python 2's `round`: to the nearest integer, halves away from zero. */
  function Round(x: real): (r: int)
    ensures x >= 0.0 ==> 0 <= r && x - 0.5 < r as real <= x + 0.5
    ensures x < 0.0 ==> r <= 0 && x - 0.5 <= r as real < x + 0.5
  {
    if x >= 0.0 then (x + 0.5).Floor else -((0.5 - x).Floor)
  }

  /** A value sent exactly by `PackFloat`: a multiple of 0.5 in [0, 127]. */
  predicate IsHalfStep(x: real) {
    0.0 <= x <= 127.0 && (2.0 * x).Floor as real == 2.0 * x
  }

  /** `pack_float`: twice the number, rounded, capped at 254; there is no lower clamp. */
  function PackFloat(num: real): (r: int)
    ensures r <= MAX_PACKED
    ensures r == MAX_PACKED <==> num >= 126.75
    ensures num < 126.75 ==> r == Round(2.0 * num)
    ensures num < 126.75 ==> 2.0 * num - 0.5 <= r as real <= 2.0 * num + 0.5
    ensures r >= 0 <==> num > -0.25
  {
    var rawNum := Round(num * 2.0);
    if rawNum > 254 then 254 else rawNum
  }

  /** `unpack_float`: halves the packed number. */
  function UnpackFloat(packedNum: int): (r: real)
    ensures 2.0 * r == packedNum as real
    ensures packedNum <= MAX_PACKED ==> PackFloat(r) == packedNum
  {
    packedNum as real * 0.5
  }

  /** `pack_int`: 254 above 254, otherwise the rounded number. */
  function PackInt(num: real): (r: int)
    ensures r <= MAX_PACKED
    ensures num > 254.0 ==> r == MAX_PACKED
    ensures num <= 254.0 ==> r == Round(num)
    ensures num <= 254.0 ==> num - 0.5 <= r as real <= num + 0.5
    ensures r >= 0 <==> num > -0.5
  {
    if num > 254.0 then 254 else Round(num)
  }

  /** `unpack_int`: the identity. */
  function UnpackInt(num: int): (r: int)
    ensures 0 <= num <= MAX_PACKED ==> PackInt(r as real) == num
    ensures r as real == num as real
  {
    num
  }

  /**
   * `struct.pack('B' * |vals|, *vals)`: the values as bytes, in order, or an
   * error naming the first value outside 0..255.
   */
  function PackUnsignedBytes(vals: seq<int>): (r: Result<seq<Byte>>)
    ensures r.Ok? <==> forall i :: 0 <= i < |vals| ==> 0 <= vals[i] < 256
    ensures r.Ok? ==> |r.value| == |vals| && forall i :: 0 <= i < |vals| ==> r.value[i] == vals[i]
    ensures r.Err? ==> r.error.ByteOutOfRange? && r.error.value in vals && !(0 <= r.error.value < 256)
  {
    if vals == [] then Ok([])
    else if !(0 <= vals[0] < 256) then Err(ByteOutOfRange(vals[0]))
    else match PackUnsignedBytes(vals[1..])
      case Err(e) => Err(e)
      case Ok(rest) => Ok([vals[0] as Byte] + rest)
  }

  /** `struct.pack('BB', a, b)`: both in range gives exactly `[a, b]`. */
  lemma PackUnsignedBytesPair(a: int, b: int)
    ensures PackUnsignedBytes([a, b]).Ok? <==> 0 <= a < 256 && 0 <= b < 256
    ensures PackUnsignedBytes([a, b]).Ok? ==> PackUnsignedBytes([a, b]).value == [a, b]
  {
  }

  /** `Vector2D.PACKED_SIZE` */
  const VECTOR2D_PACKED_SIZE: nat := 2

  /** A position: `x` is packed at the first byte, `y` at the second. */
  datatype Vector2D = Vector2D(x: real, y: real) {

    /** `Vector2D.pack`: both coordinates through `PackFloat`; fails on a negative one. */
    function Pack(): (r: Result<seq<Byte>>)
      ensures r.Ok? <==> x > -0.25 && y > -0.25
      ensures r.Ok? ==> |r.value| == VECTOR2D_PACKED_SIZE
      ensures r.Ok? ==> r.value[0] == PackFloat(x) && r.value[1] == PackFloat(y)
    {
      PackUnsignedBytesPair(PackFloat(x), PackFloat(y));
      PackUnsignedBytes([PackFloat(x), PackFloat(y)])
    }

    /** `Vector2D.unpack(data, offset)`: reads the bytes at `offset` and `offset + 1`. */
    static function Unpack(data: seq<Byte>, offset: nat): (r: Result<Vector2D>)
      ensures r.Ok? <==> offset + VECTOR2D_PACKED_SIZE <= |data|
      ensures r.Ok? ==> 2.0 * r.value.x == data[offset] as real && 2.0 * r.value.y == data[offset + 1] as real
      ensures r.Err? ==> r.error == BufferTooShort(VECTOR2D_PACKED_SIZE, |data|)
    {
      if |data| < offset + 2 then Err(BufferTooShort(2, |data|))
      else Ok(Vector2D(UnpackFloat(data[offset]), UnpackFloat(data[offset + 1])))
    }

    /** `Vector2D.__eq__`: coordinate-wise comparison. */
    function Equals(other: Vector2D): (r: bool)
      ensures r <==> this == other
    {
      x == other.x && y == other.y
    }
  }

  /** `RobotInfo.PACKED_SIZE`: id and heading, then the position. */
  const ROBOT_INFO_PACKED_SIZE: nat := 2 + VECTOR2D_PACKED_SIZE

  /** A robot: id at byte 0, heading at byte 1, position at bytes 2 and 3. */
  datatype RobotInfo = RobotInfo(id: int, heading: real, pos: Vector2D) {

    /** `RobotInfo.pack`: id through `PackInt`, heading through plain `PackFloat`, then the position. */
    function Pack(): (r: Result<seq<Byte>>)
      ensures r.Ok? <==> id >= 0 && heading > -0.25 && pos.x > -0.25 && pos.y > -0.25
      ensures r.Ok? ==> |r.value| == ROBOT_INFO_PACKED_SIZE
      ensures r.Ok? ==> r.value[0] == PackInt(id as real) && r.value[1] == PackFloat(heading)
      ensures r.Ok? ==> r.value[2..] == pos.Pack().value
    {
      PackUnsignedBytesPair(PackInt(id as real), PackFloat(heading));
      match PackUnsignedBytes([PackInt(id as real), PackFloat(heading)])
      case Err(e) => Err(e)
      case Ok(data) =>
        match pos.Pack()
        case Err(e) => Err(e)
        case Ok(posData) => Ok(data + posData)
    }

    /**
     * `RobotInfo.unpack`: `struct.unpack('BB', data[:2])` needs two bytes,
     * then the position is unpacked from offset 2; bytes past the fourth are ignored.
     */
    static function Unpack(data: seq<Byte>): (r: Result<RobotInfo>)
      ensures r.Ok? <==> ROBOT_INFO_PACKED_SIZE <= |data|
      ensures r.Ok? ==> r.value.id == data[0] && 2.0 * r.value.heading == data[1] as real
      ensures r.Ok? ==> Vector2D.Unpack(data, 2) == Ok(r.value.pos)
      ensures |data| < 2 ==> r == Err(WrongLength(2, |data|))
      ensures 2 <= |data| < ROBOT_INFO_PACKED_SIZE ==> r == Err(BufferTooShort(VECTOR2D_PACKED_SIZE, |data|))
    {
      if |data| < 2 then Err(WrongLength(2, |data|))  // `data[:2]` is then shorter than 2
      else
        match Vector2D.Unpack(data, 2)
        case Err(e) => Err(e)
        case Ok(pos) => Ok(RobotInfo(UnpackInt(data[0]), UnpackFloat(data[1]), pos))
    }

    /** `RobotInfo.__eq__`: fieldwise comparison. */
    function Equals(other: RobotInfo): (r: bool)
      ensures r <==> this == other
    {
      id == other.id && heading == other.heading && pos.Equals(other.pos)
    }
  }

  /** The frame header: robot count at byte 0, ball count at byte 1. */
  datatype Header = Header(numRobots: int, numBalls: int) {

    /** `Header.pack`: both counts through `PackInt`. */
    function Pack(): (r: Result<seq<Byte>>)
      ensures r.Ok? <==> numRobots >= 0 && numBalls >= 0
      ensures r.Ok? ==> |r.value| == 2
      ensures r.Ok? ==> r.value[0] == PackInt(numRobots as real) && r.value[1] == PackInt(numBalls as real)
    {
      PackUnsignedBytesPair(PackInt(numRobots as real), PackInt(numBalls as real));
      PackUnsignedBytes([PackInt(numRobots as real), PackInt(numBalls as real)])
    }

    /** `Header.unpack`: `struct.unpack('BB', data)` on the whole buffer, which must be exactly 2 bytes. */
    static function Unpack(data: seq<Byte>): (r: Result<Header>)
      ensures r.Ok? <==> |data| == 2
      ensures r.Ok? ==> r.value.numRobots == data[0] && r.value.numBalls == data[1]
      ensures r.Err? ==> r.error == WrongLength(2, |data|)
    {
      if |data| != 2 then Err(WrongLength(2, |data|))
      else Ok(Header(UnpackInt(data[0]), UnpackInt(data[1])))
    }
  }

  // ---------------------------------------------------------------------
  // Quantisation laws
  // ---------------------------------------------------------------------

  /** Every multiple of 0.5 in [0, 127] survives a float round trip exactly. */
  lemma PackFloatHalfStepRoundTrip(v: real)
    requires IsHalfStep(v)
    ensures 0 <= PackFloat(v) <= MAX_PACKED
    ensures UnpackFloat(PackFloat(v)) == v
  {
    var k := (2.0 * v).Floor;
    assert Round(2.0 * v) == k;
  }

  /** Any value in [0, 127] comes back within a quarter, half the quantisation step. */
  lemma PackFloatPrecision(v: real)
    requires 0.0 <= v <= 127.0
    ensures 0 <= PackFloat(v) <= MAX_PACKED
    ensures -0.25 <= UnpackFloat(PackFloat(v)) - v <= 0.25
  {
  }

  /** Above 127 the float saturates: it always comes back as 127. */
  lemma PackFloatSaturates(v: real)
    requires v > 127.0
    ensures PackFloat(v) == MAX_PACKED && UnpackFloat(PackFloat(v)) == 127.0
  {
  }

  /** Integers in 0..254 are fixed points of `PackInt`, and `UnpackInt` gives them back. */
  lemma PackIntFixedPoints(n: int)
    requires 0 <= n <= MAX_PACKED
    ensures PackInt(n as real) == n
    ensures UnpackInt(PackInt(n as real)) == n
  {
  }

  /** On integers `PackInt` is exactly `min(n, 254)`. */
  lemma PackIntOnIntegers(n: int)
    ensures PackInt(n as real) == if n > MAX_PACKED then MAX_PACKED else n
  {
  }

  // ---------------------------------------------------------------------
  // Message round trips
  // ---------------------------------------------------------------------

  /**
   * A position with half-step coordinates packs, and unpacking it at its
   * offset inside any buffer gives it back.
   */
  lemma Vector2DRoundTrip(v: Vector2D, before: seq<Byte>, after: seq<Byte>)
    requires IsHalfStep(v.x) && IsHalfStep(v.y)
    ensures v.Pack().Ok?
    ensures Vector2D.Unpack(before + v.Pack().value + after, |before|) == Ok(v)
  {
    PackFloatHalfStepRoundTrip(v.x);
    PackFloatHalfStepRoundTrip(v.y);
    var data := before + v.Pack().value + after;
    assert data[|before|] == PackFloat(v.x) && data[|before| + 1] == PackFloat(v.y);
  }

  /** Two bytes decode to a position that packs back to them exactly when neither is 255. */
  lemma Vector2DBytesRoundTrip(data: seq<Byte>)
    requires |data| == VECTOR2D_PACKED_SIZE
    ensures Vector2D.Unpack(data, 0).Ok?
    ensures Vector2D.Unpack(data, 0).value.Pack() == Ok(data) <==> data[0] <= MAX_PACKED && data[1] <= MAX_PACKED
  {
    var v := Vector2D.Unpack(data, 0).value;
    if data[0] <= MAX_PACKED && data[1] <= MAX_PACKED {
      assert v.Pack().value == data;
    }
  }

  /** A robot with an id in 0..254 and half-step heading and position round-trips. */
  lemma RobotInfoRoundTrip(r: RobotInfo)
    requires 0 <= r.id <= MAX_PACKED
    requires IsHalfStep(r.heading) && IsHalfStep(r.pos.x) && IsHalfStep(r.pos.y)
    ensures r.Pack().Ok?
    ensures RobotInfo.Unpack(r.Pack().value) == Ok(r)
  {
    PackFloatHalfStepRoundTrip(r.heading);
    PackIntFixedPoints(r.id);
    var data := r.Pack().value;
    Vector2DRoundTrip(r.pos, data[..2], []);
    assert data == data[..2] + r.pos.Pack().value + [];
    var back := RobotInfo.Unpack(data).value;
    assert back.id == r.id;
    assert back.heading == r.heading;
  }

  /** Four bytes decode to a robot that packs back to them exactly when none is 255. */
  lemma RobotInfoBytesRoundTrip(data: seq<Byte>)
    requires |data| == ROBOT_INFO_PACKED_SIZE
    ensures RobotInfo.Unpack(data).Ok?
    ensures RobotInfo.Unpack(data).value.Pack() == Ok(data) <==>
      forall i :: 0 <= i < |data| ==> data[i] <= MAX_PACKED
  {
    var r := RobotInfo.Unpack(data).value;
    if forall i :: 0 <= i < |data| ==> data[i] <= MAX_PACKED {
      assert r.Pack().value == data;
    }
  }

  /** Counts in 0..254 survive a header round trip. */
  lemma HeaderRoundTrip(h: Header)
    requires 0 <= h.numRobots <= MAX_PACKED && 0 <= h.numBalls <= MAX_PACKED
    ensures h.Pack().Ok?
    ensures Header.Unpack(h.Pack().value) == Ok(h)
  {
    PackIntFixedPoints(h.numRobots);
    PackIntFixedPoints(h.numBalls);
    assert h.Pack().value == [h.numRobots, h.numBalls];
  }

  /** Two bytes decode to a header that packs back to them exactly when neither is 255. */
  lemma HeaderBytesRoundTrip(data: seq<Byte>)
    requires |data| == 2
    ensures Header.Unpack(data).Ok?
    ensures Header.Unpack(data).value.Pack() == Ok(data) <==> data[0] <= MAX_PACKED && data[1] <= MAX_PACKED
  {
    var h := Header.Unpack(data).value;
    if data[0] <= MAX_PACKED && data[1] <= MAX_PACKED {
      assert h.Pack().value == data;
    }
  }

  // ---------------------------------------------------------------------
  // The module's own unit tests, as lemmas about concrete values
  // ---------------------------------------------------------------------

  lemma TestPackFloat()
    ensures PackFloat(5.0) == 10 && PackFloat(2.5) == 5
  {
  }

  /** Ties go away from zero, as Python 2's `round` does (Python 3 would round 2.5 to 2). */
  lemma TiesAwayFromZero()
    ensures PackFloat(0.25) == 1 && PackFloat(1.25) == 3
    ensures PackInt(2.5) == 3 && PackInt(0.5) == 1
    ensures PackInt(-2.5) == -3 && PackFloat(-0.25) == -1
  {
  }

  lemma TestUnpackFloat()
    ensures UnpackFloat(15) == 7.5
  {
  }

  lemma TestPackInt()
    ensures PackInt(5.0) == 5 && PackInt(255.0) == 254 && PackInt(655.0) == 254
  {
  }

  lemma TestVector2DPackUnpack()
    ensures Vector2D(3.5, 6.0).Pack().Ok?
    ensures Vector2D.Unpack(Vector2D(3.5, 6.0).Pack().value, 0) == Ok(Vector2D(3.5, 6.0))
  {
    Vector2DRoundTrip(Vector2D(3.5, 6.0), [], []);
    assert [] + Vector2D(3.5, 6.0).Pack().value + [] == Vector2D(3.5, 6.0).Pack().value;
  }

  lemma TestVector2DEquals()
    ensures Vector2D(1.0, 2.0).Equals(Vector2D(1.0, 2.0))
    ensures !Vector2D(1.0, 2.0).Equals(Vector2D(1.0, 3.0))
    ensures !Vector2D(1.0, 2.0).Equals(Vector2D(2.0, 2.0))
  {
  }

  lemma TestRobotInfoPackUnpack()
    ensures RobotInfo(3, 13.5, Vector2D(3.5, 6.0)).Pack().Ok?
    ensures RobotInfo.Unpack(RobotInfo(3, 13.5, Vector2D(3.5, 6.0)).Pack().value)
         == Ok(RobotInfo(3, 13.5, Vector2D(3.5, 6.0)))
  {
    RobotInfoRoundTrip(RobotInfo(3, 13.5, Vector2D(3.5, 6.0)));
  }

  lemma TestRobotInfoEquals()
    ensures RobotInfo(1, 8.5, Vector2D(2.0, 3.0)).Equals(RobotInfo(1, 8.5, Vector2D(2.0, 3.0)))
    ensures !RobotInfo(1, 8.5, Vector2D(2.0, 3.0)).Equals(RobotInfo(2, 8.5, Vector2D(2.0, 3.0)))
    ensures !RobotInfo(1, 8.5, Vector2D(2.0, 3.0)).Equals(RobotInfo(1, 9.5, Vector2D(2.0, 3.0)))
    ensures !RobotInfo(1, 8.5, Vector2D(2.0, 3.0)).Equals(RobotInfo(1, 8.5, Vector2D(3.0, 3.0)))
  {
  }

  lemma TestHeaderPackUnpack()
    ensures Header(5, 3).Pack().Ok?
    ensures Header.Unpack(Header(5, 3).Pack().value) == Ok(Header(5, 3))
  {
    HeaderRoundTrip(Header(5, 3));
  }
}
