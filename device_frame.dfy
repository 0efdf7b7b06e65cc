/** The device side of the frame: the byte packing at the end of `SendLoRa` in the firmware and its
    hexadecimal rendering by `array_to_string`. */
module DeviceFrame {
  import opened Common
  import opened PayloadCodec

  // The C integer types of the firmware's sensor variables.
  type Int8 = x: int | -128 <= x < 128
  type UInt8 = x: int | 0 <= x < 256
  type Int16 = x: int | -32768 <= x < 32768
  type UInt16 = x: int | 0 <= x < 65536
  type Int32 = x: int | -0x8000_0000 <= x < 0x8000_0000
  type UInt32 = x: int | 0 <= x < 0x1_0000_0000

  const TWO24: nat := 16777216

  /** C `x >> n` on a signed or unsigned integer. GCC shifts signed values arithmetically, which is
      floor division by 2^n; Dafny's `/` floors for a positive divisor. */
  function Shr(x: int, n: nat): int {
    x / Pow2(n)
  }

  /** The value an `unsigned char` slot receives from the C integer x: x modulo 256. On a
      two's-complement value this is also `x & 0xFF`. */
  function LowByte(x: int): Byte {
    x % 256
  }

  /** C conversion to `int8_t`: GCC wraps modulo 256 into [-128, 127]. */
  function ToInt8(x: int): Int8 {
    (x + 128) % 256 - 128
  }

  /** C `a / b` on `int`, which truncates toward zero. */
  function CDiv(a: int, b: int): int
    requires b > 0
  {
    if a >= 0 then a / b else -((-a) / b)
  }

  /** `x >> n` rounds toward minus infinity: it is the largest q with q * 2^n <= x. */
  lemma ShrFloors(x: int, n: nat)
    ensures Pow2(n) * Shr(x, n) <= x < Pow2(n) * (Shr(x, n) + 1)
  {
  }

  /** The stored byte differs from x by a multiple of 256, and a value that fits is stored as is. */
  lemma LowByteWraps(x: int)
    ensures (x - LowByte(x)) % 256 == 0
    ensures 0 <= x < 256 ==> LowByte(x) == x
  {
  }

  /** `(int8_t)x` differs from x by a multiple of 256, and a value that fits is kept as is. */
  lemma ToInt8Wraps(x: int)
    ensures (x - ToInt8(x)) % 256 == 0
    ensures -128 <= x < 128 ==> ToInt8(x) == x
  {
  }

  /** C division by 4, as `SendLoRa` divides the SNR, truncates toward zero: the quotient has the
      sign of a, its magnitude is the floor of |a| / 4, and negating a negates the quotient. */
  lemma CDivTruncates(a: int)
    ensures a >= 0 ==> 0 <= CDiv(a, 4) && 4 * CDiv(a, 4) <= a < 4 * CDiv(a, 4) + 4
    ensures a < 0 ==> CDiv(a, 4) <= 0 && 4 * CDiv(a, 4) - 4 < a <= 4 * CDiv(a, 4)
    ensures CDiv(-a, 4) == -CDiv(a, 4)
  {
  }

  /** The integer sensor values `SendLoRa` packs: temperature in centi-degrees, doubled humidity,
      pressure over 10, the three 24-bit position values, satellites, battery, time to fix, speed,
      transmit power and the downlink SNR and RSSI read from the radio module. */
  datatype SensorSample = SensorSample(
    t: Int16,
    h: UInt8,
    p: UInt16,
    latitudeBinary: UInt32,
    longitudeBinary: UInt32,
    altitudeBinary: Int32,
    s: UInt8,
    bat: UInt16,
    ttf: Int32,
    speed: Int8,
    pwr: Int8,
    dlSnr: Int8,
    dlRssi: Int8)

  /** The two bytes `x >> 8, x & 0xFF` of a 16-bit field, high byte first. */
  function Be16(x: int): seq<Byte> {
    [LowByte(Shr(x, 8)), LowByte(x)]
  }

  /** The three bytes `(x >> 16) & 0xFF, (x >> 8) & 0xFF, x & 0xFF` of a 24-bit field. */
  function Be24(x: int): seq<Byte> {
    [LowByte(Shr(x, 16)), LowByte(Shr(x, 8)), LowByte(x)]
  }

  /** Bytes 0-4: temperature, humidity and pressure. */
  function EnvironmentBytes(v: SensorSample): seq<Byte> {
    Be16(v.t) + [v.h] + Be16(v.p)
  }

  /** Bytes 5-14: latitude, longitude, altitude and the satellite count. */
  function PositionBytes(v: SensorSample): seq<Byte> {
    Be24(v.latitudeBinary) + Be24(v.longitudeBinary) + Be24(v.altitudeBinary) + [v.s]
  }

  /** Bytes 15-21: battery, time to fix, speed, power and the downlink SNR and RSSI. */
  function StatusBytes(v: SensorSample): seq<Byte> {
    Be16(v.bat) + [LowByte(v.ttf), LowByte(v.speed), LowByte(v.pwr),
                   LowByte(CDiv(v.dlSnr, 4)), LowByte(ToInt8(-(v.dlRssi as int)))]
  }

  /** The 22 bytes `SendLoRa` writes into `mydata`, in order. */
  function FrameBytes(v: SensorSample): seq<Byte> {
    EnvironmentBytes(v) + PositionBytes(v) + StatusBytes(v)
  }

  /** `mydata[i++] = x`: one byte appended to what the buffer holds. */
  method PutByte(mydata: array<Byte>, i: nat, x: Byte) returns (j: nat)
    requires i < mydata.Length
    modifies mydata
    ensures j == i + 1
    ensures mydata[..j] == old(mydata[..i]) + [x]
  {
    mydata[i] := x;
    j := i + 1;
    assert mydata[..j] == mydata[..i] + [x];
  }

  /** `mydata[i++] = x >> 8; mydata[i++] = x & 0xFF;` */
  method Put16(mydata: array<Byte>, i: nat, x: int) returns (j: nat)
    requires i + 2 <= mydata.Length
    modifies mydata
    ensures j == i + 2
    ensures mydata[..j] == old(mydata[..i]) + Be16(x)
  {
    j := PutByte(mydata, i, LowByte(Shr(x, 8)));
    j := PutByte(mydata, j, LowByte(x));
  }

  /** `mydata[i++] = (x >> 16) & 0xFF; mydata[i++] = (x >> 8) & 0xFF; mydata[i++] = x & 0xFF;` */
  method Put24(mydata: array<Byte>, i: nat, x: int) returns (j: nat)
    requires i + 3 <= mydata.Length
    modifies mydata
    ensures j == i + 3
    ensures mydata[..j] == old(mydata[..i]) + Be24(x)
  {
    j := PutByte(mydata, i, LowByte(Shr(x, 16)));
    j := PutByte(mydata, j, LowByte(Shr(x, 8)));
    j := PutByte(mydata, j, LowByte(x));
  }

  /** The writes of temperature, humidity and pressure. */
  method PutEnvironment(mydata: array<Byte>, i: nat, v: SensorSample) returns (j: nat)
    requires i + 5 <= mydata.Length
    modifies mydata
    ensures j == i + 5
    ensures mydata[..j] == old(mydata[..i]) + EnvironmentBytes(v)
  {
    j := Put16(mydata, i, v.t);
    j := PutByte(mydata, j, v.h);
    j := Put16(mydata, j, v.p);
  }

  /** The writes of the three position fields and the satellite count. */
  method PutPosition(mydata: array<Byte>, i: nat, v: SensorSample) returns (j: nat)
    requires i + 10 <= mydata.Length
    modifies mydata
    ensures j == i + 10
    ensures mydata[..j] == old(mydata[..i]) + PositionBytes(v)
  {
    j := Put24(mydata, i, v.latitudeBinary);
    j := Put24(mydata, j, v.longitudeBinary);
    j := Put24(mydata, j, v.altitudeBinary);
    j := PutByte(mydata, j, v.s);
  }

  /** The writes of battery, time to fix, speed, power, SNR and RSSI. */
  method PutStatus(mydata: array<Byte>, i: nat, v: SensorSample) returns (j: nat)
    requires i + 7 <= mydata.Length
    modifies mydata
    ensures j == i + 7
    ensures mydata[..j] == old(mydata[..i]) + StatusBytes(v)
  {
    j := Put16(mydata, i, v.bat);
    j := PutByte(mydata, j, LowByte(v.ttf));
    j := PutByte(mydata, j, LowByte(v.speed));
    j := PutByte(mydata, j, LowByte(v.pwr));
    j := PutByte(mydata, j, LowByte(CDiv(v.dlSnr, 4)));            // (int8_t)dl.SNR / 4
    j := PutByte(mydata, j, LowByte(ToInt8(-(v.dlRssi as int))));  // (int8_t)-dl.RSSI
  }

  /** The frame packing of `SendLoRa`: `mydata[i++] = …` into a 32-byte buffer. */
  method PackFrame(v: SensorSample) returns (mydata: array<Byte>, i: nat)
    ensures mydata.Length == 32 && i == MIN_BUFFER_LENGTH
    ensures mydata[..i] == FrameBytes(v)
  {
    mydata := new Byte[32];
    i := 0;
    assert mydata[..i] == [];
    i := PutEnvironment(mydata, i, v);
    assert mydata[..i] == EnvironmentBytes(v);
    i := PutPosition(mydata, i, v);
    i := PutStatus(mydata, i, v);
  }

  // ---------------------------------------------------------------------------------------------
  // Encode/decode round trip against the backend decoder

  /** What the backend decodes from the frame of a sample. The 24-bit fields come back modulo 2^24;
      time to fix, speed and power come back as unsigned bytes; the payload SNR is the downlink SNR
      over 4 truncated toward zero; the RSSI comes back as is when it is not positive. */
  function ExpectedReading(v: SensorSample): DecodedReading {
    DecodedReading(
      temperature := v.t as real / 100.0,
      humidity := v.h as real / 2.0,
      pressure := v.p * 10,
      location := Some(Location(
        latitude := LatitudeOf(v.latitudeBinary % TWO24),
        longitude := LongitudeOf(v.longitudeBinary % TWO24),
        altitude := (v.altitudeBinary % TWO24) as real / 100.0,
        satellites := v.s)),
      battery := v.bat,
      timeToFix := v.ttf % 256,
      speed := v.speed % 256,
      power := v.pwr % 256,
      signalQuality := Some(SignalQuality(
        snr := CDiv(v.dlSnr, 4),
        rssi := if v.dlRssi <= 0 then v.dlRssi else v.dlRssi - 256)))
  }

  /** `t >> 8, t & 0xFF` read back with `readInt16BE` gives t for every int16. */
  lemma Int16RoundTrip(buf: seq<Byte>, off: nat, t: Int16)
    requires off + 2 <= |buf|
    requires buf[off] == LowByte(Shr(t, 8)) && buf[off + 1] == LowByte(t)
    ensures ReadInt16BE(buf, off) == t
  {
    Pow2Values();
    var q, r := t / 256, t % 256;
    assert t == 256 * q + r;
    assert -128 <= q < 128;
    if q >= 0 {
      assert buf[off] == q;
    } else {
      assert buf[off] == q + 256;
    }
  }

  /** `p >> 8, p & 0xFF` read back with `readUInt16BE` gives p for every uint16. */
  lemma UInt16RoundTrip(buf: seq<Byte>, off: nat, p: UInt16)
    requires off + 2 <= |buf|
    requires buf[off] == LowByte(Shr(p, 8)) && buf[off + 1] == LowByte(p)
    ensures ReadUInt16BE(buf, off) == p
  {
    Pow2Values();
    assert p == 256 * (p / 256) + p % 256;
  }

  /** `(v >> 16) & 0xFF, (v >> 8) & 0xFF, v & 0xFF` recomposed gives v modulo 2^24, so v itself
      exactly when 0 <= v < 2^24. */
  lemma Field24RoundTrip(v: int)
    ensures Compose24(LowByte(Shr(v, 16)), LowByte(Shr(v, 8)), LowByte(v)) == v % TWO24
  {
    Pow2Values();
    var d, q1 := v % 256, v / 256;
    var c, q2 := q1 % 256, q1 / 256;
    var b, q3 := q2 % 256, q2 / 256;
    assert v == 16777216 * q3 + 65536 * b + 256 * c + d;
    assert v / 65536 == q2 by {
      assert v == 65536 * q2 + (256 * c + d);
    }
    assert v % 16777216 == 65536 * b + 256 * c + d;
    assert Shr(v, 16) == q2 && Shr(v, 8) == q1;
    Compose24Value(b, c, d);
  }

  /** A buffer holds the frame of a sample: byte by byte what `SendLoRa` writes. */
  predicate HoldsFrameOf(b: seq<Byte>, v: SensorSample) {
    && |b| == MIN_BUFFER_LENGTH
    && b[0] == LowByte(Shr(v.t, 8)) && b[1] == LowByte(v.t)
    && b[2] == v.h
    && b[3] == LowByte(Shr(v.p, 8)) && b[4] == LowByte(v.p)
    && b[5] == LowByte(Shr(v.latitudeBinary, 16)) && b[6] == LowByte(Shr(v.latitudeBinary, 8))
    && b[7] == LowByte(v.latitudeBinary)
    && b[8] == LowByte(Shr(v.longitudeBinary, 16)) && b[9] == LowByte(Shr(v.longitudeBinary, 8))
    && b[10] == LowByte(v.longitudeBinary)
    && b[11] == LowByte(Shr(v.altitudeBinary, 16)) && b[12] == LowByte(Shr(v.altitudeBinary, 8))
    && b[13] == LowByte(v.altitudeBinary)
    && b[14] == v.s
    && b[15] == LowByte(Shr(v.bat, 8)) && b[16] == LowByte(v.bat)
    && b[17] == LowByte(v.ttf) && b[18] == LowByte(v.speed) && b[19] == LowByte(v.pwr)
    && b[20] == LowByte(CDiv(v.dlSnr, 4))
    && b[21] == LowByte(ToInt8(-(v.dlRssi as int)))
  }

  /** The concatenation `FrameBytes` lays the fields out at the decoder's offsets. */
  lemma FrameBytesLayout(v: SensorSample)
    ensures HoldsFrameOf(FrameBytes(v), v)
  {
  }

  /** The payload SNR byte, `(int8_t)snr / 4`, read back with `readInt8`. */
  lemma SnrRoundTrip(snr: Int8)
    ensures var q := CDiv(snr, 4); -32 <= q < 32 && (if LowByte(q) >= 128 then LowByte(q) - 256 else LowByte(q)) == q
  {
  }

  /** The RSSI byte, `(int8_t)-rssi`, negated on decode. */
  lemma RssiRoundTrip(rssi: Int8)
    ensures -(LowByte(ToInt8(-(rssi as int))) as int) == if rssi <= 0 then rssi else rssi - 256
  {
  }

  /** Decoding a buffer that holds the frame of a sample gives `ExpectedReading` of the sample. */
  lemma DecodeHeldFrame(buf: seq<Byte>, v: SensorSample)
    requires HoldsFrameOf(buf, v)
    ensures DecodePayload(buf) == Ok(ExpectedReading(v))
  {
    assert ReadInt16BE(buf, TEMPERATURE) == v.t by { Int16RoundTrip(buf, TEMPERATURE, v.t); }
    assert ReadUInt16BE(buf, PRESSURE) == v.p by { UInt16RoundTrip(buf, PRESSURE, v.p); }
    assert ReadUInt16BE(buf, BATTERY) == v.bat by { UInt16RoundTrip(buf, BATTERY, v.bat); }
    assert Compose24(buf[LAT], buf[LAT + 1], buf[LAT + 2]) == v.latitudeBinary % TWO24 by {
      Field24RoundTrip(v.latitudeBinary);
    }
    assert Compose24(buf[LON], buf[LON + 1], buf[LON + 2]) == v.longitudeBinary % TWO24 by {
      Field24RoundTrip(v.longitudeBinary);
    }
    assert Compose24(buf[ALT], buf[ALT + 1], buf[ALT + 2]) == v.altitudeBinary % TWO24 by {
      Field24RoundTrip(v.altitudeBinary);
    }
    assert ReadInt8(buf, SNR) == CDiv(v.dlSnr, 4) by { SnrRoundTrip(v.dlSnr); }
    assert -(buf[RSSI] as int) == (if v.dlRssi <= 0 then v.dlRssi else v.dlRssi - 256) by {
      RssiRoundTrip(v.dlRssi);
    }
    DecodeFromFieldValues(buf, v);
  }

  /** The decoder's reads, once each is known to give back its sample field, assemble into
      `ExpectedReading`. */
  lemma DecodeFromFieldValues(buf: seq<Byte>, v: SensorSample)
    requires |buf| >= MIN_BUFFER_LENGTH
    requires ReadInt16BE(buf, TEMPERATURE) == v.t && buf[HUMIDITY] == v.h
    requires ReadUInt16BE(buf, PRESSURE) == v.p
    requires Compose24(buf[LAT], buf[LAT + 1], buf[LAT + 2]) == v.latitudeBinary % TWO24
    requires Compose24(buf[LON], buf[LON + 1], buf[LON + 2]) == v.longitudeBinary % TWO24
    requires Compose24(buf[ALT], buf[ALT + 1], buf[ALT + 2]) == v.altitudeBinary % TWO24
    requires buf[SATELLITES] == v.s && ReadUInt16BE(buf, BATTERY) == v.bat
    requires buf[TTF] == v.ttf % 256 && buf[SPEED] == v.speed % 256 && buf[POWER] == v.pwr % 256
    requires ReadInt8(buf, SNR) == CDiv(v.dlSnr, 4)
    requires -(buf[RSSI] as int) == (if v.dlRssi <= 0 then v.dlRssi else v.dlRssi - 256)
    ensures DecodePayload(buf) == Ok(ExpectedReading(v))
  {
  }

  /** Encode then decode: the backend reads back from the device's frame exactly the reading
      `ExpectedReading` describes. */
  lemma FrameRoundTrip(v: SensorSample)
    ensures DecodePayload(FrameBytes(v)) == Ok(ExpectedReading(v))
  {
    FrameBytesLayout(v);
    DecodeHeldFrame(FrameBytes(v), v);
  }

  /** For samples whose values fit the wire fields, every value is recovered exactly. */
  lemma FrameRecoversFittingSample(v: SensorSample)
    requires 0 <= v.latitudeBinary < TWO24 && 0 <= v.longitudeBinary < TWO24
    requires 0 <= v.altitudeBinary < TWO24
    requires 0 <= v.ttf < 256 && 0 <= v.speed && 0 <= v.pwr && v.dlRssi <= 0
    ensures var d := DecodePayload(FrameBytes(v)).value;
      && d.temperature * 100.0 == v.t as real
      && d.humidity * 2.0 == v.h as real
      && d.pressure == v.p * 10
      && d.location == Some(Location(LatitudeOf(v.latitudeBinary), LongitudeOf(v.longitudeBinary),
                                     v.altitudeBinary as real / 100.0, v.s))
      && d.battery == v.bat && d.timeToFix == v.ttf && d.speed == v.speed && d.power == v.pwr
      && d.signalQuality == Some(SignalQuality(CDiv(v.dlSnr, 4), v.dlRssi))
  {
    FrameRoundTrip(v);
    ExpectedFitting(v);
  }

  lemma ExpectedFitting(v: SensorSample)
    requires 0 <= v.latitudeBinary < TWO24 && 0 <= v.longitudeBinary < TWO24
    requires 0 <= v.altitudeBinary < TWO24
    requires 0 <= v.ttf < 256 && 0 <= v.speed && 0 <= v.pwr && v.dlRssi <= 0
    ensures var d := ExpectedReading(v);
      && d.temperature * 100.0 == v.t as real
      && d.humidity * 2.0 == v.h as real
      && d.pressure == v.p * 10
      && d.location == Some(Location(LatitudeOf(v.latitudeBinary), LongitudeOf(v.longitudeBinary),
                                     v.altitudeBinary as real / 100.0, v.s))
      && d.battery == v.bat && d.timeToFix == v.ttf && d.speed == v.speed && d.power == v.pwr
      && d.signalQuality == Some(SignalQuality(CDiv(v.dlSnr, 4), v.dlRssi))
  {
  }

  /** A fix below sea level does not survive the trip: the firmware packs a signed altitude, the
      backend reads the 24 bits as unsigned, so a negative value comes back 2^24 higher. */
  lemma NegativeAltitudeWraps(v: SensorSample)
    requires -(TWO24 as int) < v.altitudeBinary < 0
    ensures DecodePayload(FrameBytes(v)).value.location.value.altitude
         == (v.altitudeBinary + TWO24) as real / 100.0
    ensures DecodePayload(FrameBytes(v)).value.location.value.altitude > 0.0
  {
    FrameRoundTrip(v);
    ExpectedAltitudeWraps(v);
  }

  lemma ExpectedAltitudeWraps(v: SensorSample)
    requires -(TWO24 as int) < v.altitudeBinary < 0
    ensures ExpectedReading(v).location.value.altitude == (v.altitudeBinary + TWO24) as real / 100.0
    ensures ExpectedReading(v).location.value.altitude > 0.0
  {
    assert v.altitudeBinary % TWO24 == v.altitudeBinary + TWO24;
  }

  // ---------------------------------------------------------------------------------------------
  // array_to_string

  /** The upper-case hexadecimal digit of a nibble. */
  function HexDigit(n: int): (c: char)
    requires 0 <= n < 16
    ensures '0' <= c <= '9' || 'A' <= c <= 'F'
  {
    if n < 10 then ('0' as int + n) as char else ('A' as int + n - 10) as char
  }

  /** The value of an upper-case hexadecimal digit (0 for any other character). */
  function HexValue(c: char): (n: int)
    ensures 0 <= n < 16
  {
    if '0' <= c <= '9' then c as int - '0' as int
    else if 'A' <= c <= 'F' then c as int - 'A' as int + 10
    else 0
  }

  /** The hexadecimal text of a byte string: two digits per byte, high nibble first. */
  function HexEncode(bs: seq<Byte>): seq<char> {
    seq(2 * |bs|, j requires 0 <= j < 2 * |bs| =>
      if j % 2 == 0 then HexDigit(bs[j / 2] / 16) else HexDigit(bs[j / 2] % 16))
  }

  /** Reading hexadecimal text back into bytes, two digits at a time. */
  function HexDecode(s: seq<char>): seq<Byte> {
    seq(|s| / 2, i requires 0 <= i < |s| / 2 => HexValue(s[2 * i]) * 16 + HexValue(s[2 * i + 1]))
  }

  /** The text has exactly two upper-case hexadecimal digits per byte, the high nibble first. */
  lemma HexEncodeShape(bs: seq<Byte>)
    ensures |HexEncode(bs)| == 2 * |bs|
    ensures forall j :: 0 <= j < |HexEncode(bs)| ==>
      '0' <= HexEncode(bs)[j] <= '9' || 'A' <= HexEncode(bs)[j] <= 'F'
    ensures forall i :: 0 <= i < |bs| ==>
      HexValue(HexEncode(bs)[2 * i]) == bs[i] / 16 && HexValue(HexEncode(bs)[2 * i + 1]) == bs[i] % 16
  {
    forall i | 0 <= i < |bs|
      ensures HexValue(HexEncode(bs)[2 * i]) == bs[i] / 16
      ensures HexValue(HexEncode(bs)[2 * i + 1]) == bs[i] % 16
    {
      assert (2 * i) / 2 == i && (2 * i + 1) / 2 == i && (2 * i + 1) % 2 == 1;
    }
  }

  /** Digits 2i and 2i+1 give back byte i: hexadecimal encoding is invertible. */
  lemma HexRoundTrip(bs: seq<Byte>)
    ensures HexDecode(HexEncode(bs)) == bs
  {
    var text := HexEncode(bs);
    var back := HexDecode(text);
    assert |back| == |bs|;
    forall i | 0 <= i < |bs|
      ensures back[i] == bs[i]
    {
      HexDigitsOf(bs, i);
      assert bs[i] == (bs[i] / 16) * 16 + bs[i] % 16;
    }
  }

  /** Digits 2i and 2i+1 of the text are the two nibbles of byte i. */
  lemma HexDigitsOf(bs: seq<Byte>, i: nat)
    requires i < |bs|
    ensures |HexEncode(bs)| == 2 * |bs|
    ensures HexValue(HexEncode(bs)[2 * i]) == bs[i] / 16
    ensures HexValue(HexEncode(bs)[2 * i + 1]) == bs[i] % 16
  {
    assert (2 * i) / 2 == i && (2 * i) % 2 == 0;
    assert (2 * i + 1) / 2 == i && (2 * i + 1) % 2 == 1;
  }

  /** Hence two byte strings with the same hexadecimal text are equal. */
  lemma HexInjective(a: seq<Byte>, b: seq<Byte>)
    requires HexEncode(a) == HexEncode(b)
    ensures a == b
  {
    HexRoundTrip(a);
    HexRoundTrip(b);
  }

  /** What `array_to_string` needs of its output buffer: room for 2*len digits and the NUL. */
  predicate HexBufferFits(bufferLength: int, len: int) {
    bufferLength >= 2 * len + 1
  }

  /** `array_to_string(array, len, buffer)`: 2*len upper-case digits, then '\0' at index 2*len. */
  method ArrayToString(data: array<Byte>, len: nat, buffer: array<char>)
    requires len <= data.Length
    requires HexBufferFits(buffer.Length, len)
    modifies buffer
    ensures buffer[..2 * len] == HexEncode(data[..len])
    ensures buffer[2 * len] == '\0'
    ensures buffer[2 * len + 1..] == old(buffer[2 * len + 1..])
  {
    var i: nat := 0;
    while i < len
      invariant i <= len
      invariant forall j :: 0 <= j < 2 * i ==> buffer[j] == HexEncode(data[..len])[j]
      invariant forall j :: 2 * i <= j < buffer.Length ==> buffer[j] == old(buffer[j])
    {
      var nib1 := (data[i] / 16) % 16;     // (array[i] >> 4) & 0x0F
      var nib2 := data[i] % 16;            // (array[i] >> 0) & 0x0F
      buffer[i * 2 + 0] := if nib1 < 10 then ('0' as int + nib1) as char else ('A' as int + nib1 - 10) as char;
      buffer[i * 2 + 1] := if nib2 < 10 then ('0' as int + nib2) as char else ('A' as int + nib2 - 10) as char;
      i := i + 1;
    }
    buffer[len * 2] := '\0';
  }

  /** The size of `char str[32]` that `SendLoRa` hands to `array_to_string`. */
  const SEND_LORA_STR_SIZE: nat := 32

  /** As written, the string buffer of `SendLoRa` is too small for the frame it receives: 22 bytes
      need 45 characters, the buffer has 32. */
  lemma SendLoRaStrTooSmall(v: SensorSample)
    ensures !HexBufferFits(SEND_LORA_STR_SIZE, |FrameBytes(v)|)
    ensures 2 * |FrameBytes(v)| + 1 - SEND_LORA_STR_SIZE == 13
  {
  }

  /** The end of `SendLoRa` with a string buffer of the size the frame needs: the text handed to the
      radio's `AT+SENDB` command is the hexadecimal rendering of the whole frame, NUL-terminated. */
  method SendLoRaHex(v: SensorSample) returns (str: array<char>)
    ensures str.Length == 2 * MIN_BUFFER_LENGTH + 1
    ensures str[..2 * MIN_BUFFER_LENGTH] == HexEncode(FrameBytes(v))
    ensures str[2 * MIN_BUFFER_LENGTH] == '\0'
    ensures HexDecode(str[..2 * MIN_BUFFER_LENGTH]) == FrameBytes(v)
  {
    var mydata, i := PackFrame(v);
    str := new char[2 * i + 1];
    ArrayToString(mydata, i, str);
    HexRoundTrip(FrameBytes(v));
  }
}
