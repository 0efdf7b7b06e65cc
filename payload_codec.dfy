/** The backend's decoder of the fixed 22-byte sensor frame (bytes to engineering units). */
module PayloadCodec {
  import opened Common

  /** One octet of the frame, as Node's `Buffer` indexes it. */
  type Byte = x: int | 0 <= x < 256

  // The offset table: where each field of the frame starts.
  const TEMPERATURE: nat := 0     // 2 bytes, signed big-endian
  const HUMIDITY: nat := 2        // 1 byte
  const PRESSURE: nat := 3        // 2 bytes, unsigned big-endian
  const LAT: nat := 5             // 3 bytes
  const LON: nat := 8             // 3 bytes
  const ALT: nat := 11            // 3 bytes
  const SATELLITES: nat := 14     // 1 byte
  const BATTERY: nat := 15        // 2 bytes, unsigned big-endian
  const TTF: nat := 17            // 1 byte
  const SPEED: nat := 18          // 1 byte
  const POWER: nat := 19          // 1 byte
  const SNR: nat := 20            // 1 byte, signed
  const RSSI: nat := 21           // 1 byte, negated on decode
  const MIN_BUFFER_LENGTH: nat := 22

  /** The largest value a 24-bit field can hold. */
  const MAX24: nat := 16777215

  datatype Location = Location(latitude: real, longitude: real, altitude: real, satellites: int)
  datatype SignalQuality = SignalQuality(snr: int, rssi: int)

  /** The object `decodePayload` returns. `location` and `signalQuality` are optional because the
      record writer tests for them; the decoder always fills them in. */
  datatype DecodedReading = DecodedReading(
    temperature: real,
    humidity: real,
    pressure: int,
    location: Option<Location>,
    battery: int,
    timeToFix: int,
    speed: int,
    power: int,
    signalQuality: Option<SignalQuality>)

  /** The one error `decodePayload` throws: "Buffer too short". */
  datatype DecodeError = BufferTooShort

  function Pow2(n: nat): (r: nat)
    ensures r >= 1
  {
    if n == 0 then 1 else 2 * Pow2(n - 1)
  }

  lemma Pow2Values()
    ensures Pow2(8) == 256 && Pow2(16) == 65536
  {
    assert Pow2(8) == 256;
  }

  /** JavaScript `a | b` on non-negative 32-bit operands, defined bit by bit (least significant first). */
  function BitOr(a: nat, b: nat): nat
    decreases a + b
  {
    if a == 0 && b == 0 then 0
    else 2 * BitOr(a / 2, b / 2) + (if a % 2 == 1 || b % 2 == 1 then 1 else 0)
  }

  /** JavaScript `x << n` for a byte shifted by at most 16 places: the product stays below 2^24, far
      from the 32-bit boundary where JavaScript's shift would wrap. */
  function ShiftLeft(x: Byte, n: nat): nat
    requires n <= 16
  {
    x * Pow2(n)
  }

  /** `(b0 << 16) | (b1 << 8) | b2`, the composition both 24-bit readers of the decoder use. */
  function Compose24(b0: Byte, b1: Byte, b2: Byte): nat {
    BitOr(BitOr(ShiftLeft(b0, 16), ShiftLeft(b1, 8)), b2)
  }

  lemma {:induction false} BitOrZero(a: nat)
    ensures BitOr(a, 0) == a
    decreases a
  {
    if a != 0 {
      BitOrZero(a / 2);
    }
  }

  /** OR-ing a value into the low k bits of a multiple of 2^k is addition. */
  lemma {:induction false} BitOrDisjoint(hi: nat, lo: nat, k: nat)
    requires lo < Pow2(k)
    ensures BitOr(hi * Pow2(k), lo) == hi * Pow2(k) + lo
    decreases k
  {
    if k == 0 {
      BitOrZero(hi);
    } else {
      var h := hi * Pow2(k);
      assert h == 2 * (hi * Pow2(k - 1));
      assert h / 2 == hi * Pow2(k - 1) && h % 2 == 0;
      assert lo / 2 < Pow2(k - 1);
      BitOrDisjoint(hi, lo / 2, k - 1);
      if h != 0 || lo != 0 {
        assert BitOr(h, lo) == 2 * BitOr(h / 2, lo / 2) + (if lo % 2 == 1 then 1 else 0);
      }
    }
  }

  /** The bitwise composition of three bytes is their big-endian base-256 value, in [0, 2^24 - 1]. */
  lemma Compose24Value(b0: Byte, b1: Byte, b2: Byte)
    ensures Compose24(b0, b1, b2) == b0 * 65536 + b1 * 256 + b2
    ensures 0 <= Compose24(b0, b1, b2) <= MAX24
  {
    Pow2Values();
    BitOrDisjoint(b0, b1 * 256, 16);
    assert BitOr(ShiftLeft(b0, 16), ShiftLeft(b1, 8)) == (b0 * 256 + b1) * Pow2(8);
    BitOrDisjoint(b0 * 256 + b1, b2, 8);
  }

  /** `buffer.readUInt16BE(off)`. */
  function ReadUInt16BE(buf: seq<Byte>, off: nat): (r: int)
    requires off + 2 <= |buf|
    ensures 0 <= r < 65536
  {
    buf[off] as int * 256 + buf[off + 1]
  }

  /** `buffer.readInt16BE(off)`: the same two bytes read as a two's-complement value. */
  function ReadInt16BE(buf: seq<Byte>, off: nat): (r: int)
    requires off + 2 <= |buf|
    ensures -32768 <= r < 32768
    ensures r % 65536 == ReadUInt16BE(buf, off)
    ensures (r < 0) == (buf[off] >= 128)
  {
    var u := ReadUInt16BE(buf, off);
    if u >= 32768 then u - 65536 else u
  }

  /** `buffer.readInt8(off)`. */
  function ReadInt8(buf: seq<Byte>, off: nat): (r: int)
    requires off < |buf|
    ensures -128 <= r < 128
    ensures r % 256 == buf[off]
  {
    if buf[off] >= 128 then buf[off] as int - 256 else buf[off]
  }

  /** The latitude in degrees a raw 24-bit value stands for: `value * 180 / 16777215 - 90`. */
  function LatitudeOf(value: nat): real {
    (value * 180) as real / 16777215.0 - 90.0
  }

  /** The longitude in degrees a raw 24-bit value stands for: `value * 360 / 16777215 - 180`. */
  function LongitudeOf(value: nat): real {
    (value * 360) as real / 16777215.0 - 180.0
  }

  /** `read24BitLocation`: a latitude (isLatitude) or a longitude in degrees. */
  function Read24BitLocation(buf: seq<Byte>, offset: nat, isLatitude: bool): real
    requires offset + 3 <= |buf|
  {
    var value := Compose24(buf[offset], buf[offset + 1], buf[offset + 2]);
    if isLatitude then LatitudeOf(value) else LongitudeOf(value)
  }

  /** The unsigned 24-bit altitude at bytes 11-13, in metres. */
  function ReadAltitude(buf: seq<Byte>): real
    requires ALT + 3 <= |buf|
  {
    Compose24(buf[ALT], buf[ALT + 1], buf[ALT + 2]) as real / 100.0
  }

  /** `decodePayload`: all-or-nothing decode of the fixed frame. */
  function DecodePayload(buf: seq<Byte>): (r: Result<DecodedReading, DecodeError>)
    ensures r.Err? <==> |buf| < MIN_BUFFER_LENGTH
    ensures r.Ok? ==> r.value.location.Some? && r.value.signalQuality.Some?
  {
    if |buf| < MIN_BUFFER_LENGTH then Err(BufferTooShort)
    else
      Ok(DecodedReading(
        temperature := ReadInt16BE(buf, TEMPERATURE) as real / 100.0,
        humidity := buf[HUMIDITY] as real / 2.0,
        pressure := ReadUInt16BE(buf, PRESSURE) * 10,
        location := Some(Location(
          latitude := Read24BitLocation(buf, LAT, true),
          longitude := Read24BitLocation(buf, LON, false),
          altitude := ReadAltitude(buf),
          satellites := buf[SATELLITES])),
        battery := ReadUInt16BE(buf, BATTERY),
        timeToFix := buf[TTF],
        speed := buf[SPEED],
        power := buf[POWER],
        signalQuality := Some(SignalQuality(
          snr := ReadInt8(buf, SNR),
          rssi := -(buf[RSSI] as int)))))
  }

  // ---------------------------------------------------------------------------------------------
  // Properties of the decoder

  /** Latitude stays in [-90, 90] and longitude in [-180, 180]. At the two ends of the scale, raw 0
      gives exactly -90 / -180 and raw 0xFFFFFF exactly +90 / +180, because the scale divides by
      2^24 - 1 rather than 2^24. */
  lemma LocationBounds(buf: seq<Byte>, offset: nat)
    requires offset + 3 <= |buf|
    ensures -90.0 <= Read24BitLocation(buf, offset, true) <= 90.0
    ensures -180.0 <= Read24BitLocation(buf, offset, false) <= 180.0
    ensures buf[offset] == buf[offset + 1] == buf[offset + 2] == 0 ==>
      Read24BitLocation(buf, offset, true) == -90.0 && Read24BitLocation(buf, offset, false) == -180.0
    ensures buf[offset] == buf[offset + 1] == buf[offset + 2] == 255 ==>
      Read24BitLocation(buf, offset, true) == 90.0 && Read24BitLocation(buf, offset, false) == 180.0
  {
    Compose24Value(buf[offset], buf[offset + 1], buf[offset + 2]);
  }

  /** Every decoded value lies in the range its wire encoding allows. */
  lemma DecodedRanges(buf: seq<Byte>)
    requires |buf| >= MIN_BUFFER_LENGTH
    ensures var d := DecodePayload(buf).value;
      && -327.68 <= d.temperature <= 327.67
      && 0.0 <= d.humidity <= 127.5
      && 0 <= d.pressure <= 655350 && d.pressure % 10 == 0
      && -90.0 <= d.location.value.latitude <= 90.0
      && -180.0 <= d.location.value.longitude <= 180.0
      && 0.0 <= d.location.value.altitude <= 167772.15
      && 0 <= d.location.value.satellites < 256
      && 0 <= d.battery < 65536
      && 0 <= d.timeToFix < 256 && 0 <= d.speed < 256 && 0 <= d.power < 256
      && -128 <= d.signalQuality.value.snr <= 127
      && -255 <= d.signalQuality.value.rssi <= 0
  {
    var d := DecodePayload(buf).value;
    assert -327.68 <= d.temperature <= 327.67 by {
      assert -32768 <= ReadInt16BE(buf, TEMPERATURE) < 32768;
    }
    assert 0 <= d.pressure <= 655350 && d.pressure % 10 == 0 by {
      var u := ReadUInt16BE(buf, PRESSURE);
      assert d.pressure == u * 10 && 0 <= u < 65536;
    }
    assert -90.0 <= d.location.value.latitude <= 90.0 by {
      LocationBounds(buf, LAT);
    }
    assert -180.0 <= d.location.value.longitude <= 180.0 by {
      LocationBounds(buf, LON);
    }
    assert 0.0 <= d.location.value.altitude <= 167772.15 by {
      Compose24Value(buf[ALT], buf[ALT + 1], buf[ALT + 2]);
    }
  }

  /** Each decoded field in terms of the raw bytes at its offset: temperature is the two's-complement
      big-endian int16 at byte 0 over 100, humidity byte 2 over 2, pressure the uint16 at byte 3 times
      10, altitude the unsigned 24-bit value at bytes 11-13 over 100, payload rssi minus byte 21. */
  lemma DecodedFields(buf: seq<Byte>)
    requires |buf| >= MIN_BUFFER_LENGTH
    ensures var d := DecodePayload(buf).value;
      && d.temperature * 100.0 == (buf[0] as int * 256 + buf[1] - (if buf[0] >= 128 then 65536 else 0)) as real
      && d.humidity * 2.0 == buf[2] as real
      && d.pressure == (buf[3] as int * 256 + buf[4]) * 10
      && d.location.value.altitude * 100.0 == (buf[11] as int * 65536 + buf[12] as int * 256 + buf[13]) as real
      && d.location.value.satellites == buf[14]
      && d.battery == buf[15] as int * 256 + buf[16]
      && d.timeToFix == buf[17] && d.speed == buf[18] && d.power == buf[19]
      && d.signalQuality.value.snr == (if buf[20] >= 128 then buf[20] as int - 256 else buf[20])
      && d.signalQuality.value.rssi == -(buf[21] as int)
  {
    Compose24Value(buf[ALT], buf[ALT + 1], buf[ALT + 2]);
  }

  /** The decoder reads offsets 0..21 only: two buffers that agree there decode alike. */
  lemma DecodeReadsOnlyFrame(a: seq<Byte>, b: seq<Byte>)
    requires |a| >= MIN_BUFFER_LENGTH && |b| >= MIN_BUFFER_LENGTH
    requires a[..MIN_BUFFER_LENGTH] == b[..MIN_BUFFER_LENGTH]
    ensures DecodePayload(a) == DecodePayload(b)
  {
    forall k | 0 <= k < MIN_BUFFER_LENGTH
      ensures a[k] == b[k]
    {
      assert a[k] == a[..MIN_BUFFER_LENGTH][k];
    }
  }

  /** Worked example: bytes 01 90 / 64 / 27 10, all-zero coordinates and rssi byte 0x5A decode to
      4 degC, 50 %, 100000 Pa, (-90, -180) and -90 dBm. */
  lemma DecodeExample()
    ensures var buf := [0x01, 0x90, 0x64, 0x27, 0x10] + seq(16, _ => 0) + [0x5A];
      && DecodePayload(buf).Ok?
      && DecodePayload(buf).value.temperature == 4.0
      && DecodePayload(buf).value.humidity == 50.0
      && DecodePayload(buf).value.pressure == 100000
      && DecodePayload(buf).value.location.value.latitude == -90.0
      && DecodePayload(buf).value.location.value.longitude == -180.0
      && DecodePayload(buf).value.signalQuality.value.rssi == -90
  {
    var buf: seq<Byte> := [0x01, 0x90, 0x64, 0x27, 0x10] + seq(16, _ => 0) + [0x5A];
    LocationBounds(buf, LAT);
    LocationBounds(buf, LON);
  }
}
