# LoRa-S tracker telemetry: frame codec and record shaping

This project models the data path of a satellite LoRa GPS tracker. The firmware packs one sensor
sample into a fixed 22-byte frame and sends it as upper-case hexadecimal text. The backend then:

1. receives the uplink envelope over MQTT;
2. decodes the frame into temperature, humidity, pressure, position, battery, time to fix, speed,
   power and the payload's own signal quality;
3. stores one `deviceData` point per message in the `GSR` time-series bucket;
4. broadcasts the record to the web clients;
5. shapes rows read back from the store into the per-device table, the map markers, a device's
   track and the list of fields that can raise a notification.

Modules and what they cover:

- `Common` (`common.dfy`): optional values, results, JavaScript truthiness of optional strings,
  and map lookup that gives `undefined` for a missing key.
- `PayloadCodec` (`payload_codec.dfy`): `decodePayload` and its readers. Bytes are `0..255`, the
  bitwise composition of the 24-bit fields is written out bit by bit, and degrees are exact reals.
- `MessageProcessing` (`message_processing.dfy`): `processMqttMessage`, from the parsed envelope
  to the `processedData` record. A message the JSON parser rejects is a constructor of its own.
- `DeviceFrame` (`device_frame.dfy`): the firmware side. `SendLoRa` packs the frame into a
  32-byte `unsigned char` array with C's shift-and-mask semantics. `array_to_string` turns it into
  hexadecimal text in a `char` array. The round trip through the backend decoder is proved here.
- `RecordAssembler` (`record_assembler.dfy`): `writeToInfluxDB`. There is a `PointBuilder` class
  for the client library's point builder and a `StorageSink` class for the write-and-flush to the
  store. The point, as a value, is `DevicePoint`.
- `QueryShaping` (`query_shaping.dfy`): the five controller reshapings (device list, table data,
  map data, tracking data, notification fields). Each is a method with the loop the controller
  has, proved equal to a recursive specification function, and the listed properties are proved
  about that function.
- `Dispatch` (`dispatch.dfy`): the MQTT `message` handler. It processes the message, drops it when
  processing fails or no device is named, defaults the time, stores, then broadcasts. A
  `BroadcastHub` class stands in for the websocket clients.

## Model

| member | source | states |
|---|---|---|
| Common.Truthy | backend/mqttClientLoraS.js:57-64 | JavaScript truthiness of an optional string: `undefined` and "" are falsy, every other string truthy; the tests `!messageObj.gatewayID` (backend/mqttDataProcessingLoraS.js:79), `!devEUI` (line 59) and `time \|\| …` (line 63) use it, and ProcessMqttMessage, DispatchedExactly and WithTime state their outcomes through it |
| PayloadCodec.BitOr | backend/mqttDataProcessingLoraS.js:26 | JavaScript `\|` on non-negative operands, bit by bit; BitOrZero and BitOrDisjoint state what the decoder relies on |
| PayloadCodec.ShiftLeft | backend/mqttDataProcessingLoraS.js:49-51 | JavaScript `x << n` for a byte and n ≤ 16, which stays below 2^24 and so never reaches the 32-bit sign bit; Compose24Value states what the shifted and OR-ed bytes give |
| PayloadCodec.Compose24 | backend/mqttDataProcessingLoraS.js:26 | `(b0 << 16) \| (b1 << 8) \| b2` as the decoder writes it; its value is stated by Compose24Value |
| PayloadCodec.BitOrZero | backend/mqttDataProcessingLoraS.js:26 | OR with zero leaves a value unchanged |
| PayloadCodec.BitOrDisjoint | backend/mqttDataProcessingLoraS.js:26 | OR-ing a value below 2^k into a multiple of 2^k is addition |
| PayloadCodec.Compose24Value | backend/mqttDataProcessingLoraS.js:24-31 | `(b0 << 16) \| (b1 << 8) \| b2` is the big-endian base-256 value of the three bytes, within 0..2^24-1 |
| PayloadCodec.ReadUInt16BE | backend/mqttDataProcessingLoraS.js:42 | an unsigned 16-bit read lies in 0..65535 |
| PayloadCodec.ReadInt16BE | backend/mqttDataProcessingLoraS.js:40 | a signed 16-bit read lies in -32768..32767, is the unsigned read modulo 2^16, and is negative exactly when the high byte's top bit is set |
| PayloadCodec.ReadInt8 | backend/mqttDataProcessingLoraS.js:64 | a signed byte read lies in -128..127 and is congruent to the byte modulo 256 |
| PayloadCodec.DecodePayload | backend/mqttDataProcessingLoraS.js:33-68 | the decode fails ("Buffer too short") exactly when the buffer has fewer than 22 bytes; on success location and signal quality are always present |
| PayloadCodec.Read24BitLocation | backend/mqttDataProcessingLoraS.js:24-31 | `read24BitLocation`: the 24-bit value scaled to degrees; its range and end points are stated by LocationBounds |
| PayloadCodec.LocationBounds | backend/mqttDataProcessingLoraS.js:24-31 | latitude lies in [-90, 90] and longitude in [-180, 180]; because the code divides by 2^24 - 1 (lines 28 and 30), all-zero bytes give exactly -90 / -180 and all-ones bytes exactly +90 / +180 |
| PayloadCodec.ReadAltitude | backend/mqttDataProcessingLoraS.js:48-52 | the unsigned 24-bit value at bytes 11-13 over 100; DecodedFields gives it in terms of the bytes and DecodedRanges bounds it to [0, 167772.15] |
| PayloadCodec.DecodedRanges | backend/mqttDataProcessingLoraS.js:38-66 | every decoded value lies in the range its wire encoding allows (temperature, humidity, pressure, coordinates, altitude, battery, the three status bytes, snr and rssi) |
| PayloadCodec.DecodedFields | backend/mqttDataProcessingLoraS.js:38-66 | each decoded field in terms of the bytes at its offset: temperature /100, humidity /2, pressure ×10, altitude /100, the raw status bytes, the signed SNR byte and the negated RSSI byte |
| PayloadCodec.DecodeReadsOnlyFrame | backend/mqttDataProcessingLoraS.js:7-22 | two buffers that agree on bytes 0..21 decode alike, so trailing bytes are ignored |
| PayloadCodec.DecodeExample | backend/mqttDataProcessingLoraS.js:38-66 | a concrete 22-byte frame decodes to temperature 4.0, humidity 50.0, pressure 100000, coordinates -90/-180 and rssi -90 |
| MessageProcessing.Processed | backend/mqttDataProcessingLoraS.js:70-143 | what `processMqttMessage` returns, as a value; ProcessMqttMessage is proved equal to it and its ensures state the outcomes |
| MessageProcessing.ProcessMqttMessage | backend/mqttDataProcessingLoraS.js:70-143 | a parse failure or a falsy gatewayID gives null and nothing else does; the record copies every metadata field of the envelope; `data` is present exactly when the payload is base64 of at least 22 bytes, and then it is the decode of those bytes |
| DeviceFrame.Shr | tracking_echostar.cpp:363-379 | C `x >> n`, arithmetic on signed values; ShrFloors states it rounds toward minus infinity |
| DeviceFrame.ShrFloors | tracking_echostar.cpp:363-379 | `x >> n` is the largest q with q·2^n ≤ x, negative x included |
| DeviceFrame.LowByte | tracking_echostar.cpp:363-384 | the value an `unsigned char` slot receives; LowByteWraps states it |
| DeviceFrame.LowByteWraps | tracking_echostar.cpp:363-384 | the stored byte differs from the C value by a multiple of 256 and equals it when it fits in 0..255 |
| DeviceFrame.ToInt8 | tracking_echostar.cpp:383-384 | C conversion to `int8_t`; ToInt8Wraps states it |
| DeviceFrame.ToInt8Wraps | tracking_echostar.cpp:383-384 | `(int8_t)x` differs from x by a multiple of 256 and equals x when it fits in -128..127 |
| DeviceFrame.CDiv | tracking_echostar.cpp:383 | C `/`, truncating toward zero; CDivTruncates states it for the division by 4 |
| DeviceFrame.CDivTruncates | tracking_echostar.cpp:383 | `x / 4` has the sign of x, magnitude ⌊\|x\|/4⌋, and is odd in x, unlike a flooring division |
| DeviceFrame.FrameBytes | tracking_echostar.cpp:361-384 | the 22 bytes `SendLoRa` writes, as a value; PackFrame is proved to write them, FrameBytesLayout places them and FrameRoundTrip decodes them |
| DeviceFrame.PutByte | tracking_echostar.cpp:363 | one byte is appended at index i and the index advances by one |
| DeviceFrame.Put16 | tracking_echostar.cpp:363-364 | the high and then the low byte of a 16-bit field are appended |
| DeviceFrame.Put24 | tracking_echostar.cpp:368-370 | the three masked bytes of a 24-bit field are appended, most significant first |
| DeviceFrame.PutEnvironment | tracking_echostar.cpp:363-367 | bytes 0-4 hold temperature, humidity and pressure |
| DeviceFrame.PutPosition | tracking_echostar.cpp:368-377 | bytes 5-14 hold latitude, longitude, altitude and the satellite count |
| DeviceFrame.PutStatus | tracking_echostar.cpp:378-384 | bytes 15-21 hold battery, time to fix, speed, power, SNR/4 and negated RSSI |
| DeviceFrame.PackFrame | tracking_echostar.cpp:361-384 | the 32-byte buffer's first i = 22 bytes are the frame of the sample |
| DeviceFrame.Int16RoundTrip | tracking_echostar.cpp:363-364 | `t >> 8, t & 0xFF` read back as a signed 16-bit value is t |
| DeviceFrame.UInt16RoundTrip | tracking_echostar.cpp:366-367 | `p >> 8, p & 0xFF` read back as an unsigned 16-bit value is p |
| DeviceFrame.Field24RoundTrip | tracking_echostar.cpp:368-376 | the three masked bytes of a 24-bit field recompose to the value modulo 2^24 |
| DeviceFrame.FrameBytesLayout | tracking_echostar.cpp:361-384 | the packed bytes sit at the offsets the backend decoder reads |
| DeviceFrame.SnrRoundTrip | tracking_echostar.cpp:383 | `(int8_t)snr / 4` truncates toward zero, fits a signed byte and reads back unchanged |
| DeviceFrame.RssiRoundTrip | tracking_echostar.cpp:384 | `(int8_t)-rssi` negated on decode gives rssi for non-positive values and rssi - 256 otherwise |
| DeviceFrame.DecodeHeldFrame | tracking_echostar.cpp:361-384 | any buffer that holds the frame of a sample decodes to that sample's expected reading |
| DeviceFrame.DecodeFromFieldValues | backend/mqttDataProcessingLoraS.js:33-68 | if each read gives back its field, the decode is the expected reading |
| DeviceFrame.FrameRoundTrip | tracking_echostar.cpp:361-384 | encode then decode: the backend decodes the firmware's frame to the expected reading of the sample |
| DeviceFrame.FrameRecoversFittingSample | tracking_echostar.cpp:361-384 | for samples whose values fit their wire fields, every value comes back exactly, after the decoder's scaling |
| DeviceFrame.ExpectedFitting | backend/mqttDataProcessingLoraS.js:38-66 | the expected reading of a fitting sample, field by field |
| DeviceFrame.NegativeAltitudeWraps | tracking_echostar.cpp:374-376 | a signed altitude below sea level decodes as (altitude + 2^24) / 100, a positive height |
| DeviceFrame.ExpectedAltitudeWraps | backend/mqttDataProcessingLoraS.js:48-52 | the expected altitude of a negative fix is the 2^24-wrapped value, which is positive |
| DeviceFrame.HexDigit | tracking_echostar.cpp:399-400 | a nibble becomes a digit '0'-'9' or 'A'-'F' |
| DeviceFrame.HexValue | tracking_echostar.cpp:399-400 | a digit's value is a nibble |
| DeviceFrame.HexEncode | tracking_echostar.cpp:395-403 | the hex text of a byte string, as a value; ArrayToString is proved to write it, HexEncodeShape describes it and HexRoundTrip inverts it |
| DeviceFrame.HexEncodeShape | tracking_echostar.cpp:395-403 | the text has two upper-case hex digits per byte, high nibble first |
| DeviceFrame.HexRoundTrip | tracking_echostar.cpp:395-403 | decoding the hex text gives back the bytes |
| DeviceFrame.HexDigitsOf | tracking_echostar.cpp:397-400 | digits 2i and 2i+1 are the two nibbles of byte i |
| DeviceFrame.HexInjective | tracking_echostar.cpp:395-403 | two byte strings with the same text are equal |
| DeviceFrame.ArrayToString | tracking_echostar.cpp:395-403 | the buffer's first 2·len characters are the hex text of the first len bytes, index 2·len is NUL, and the rest of the buffer is unchanged |
| DeviceFrame.SendLoRaStrTooSmall | tracking_echostar.cpp:386-387 | the 32-character string buffer cannot hold the 45 characters the 22-byte frame needs, 13 too few |
| DeviceFrame.SendLoRaHex | tracking_echostar.cpp:386-390 | with a 45-character buffer the text sent is the hex of the frame, NUL-terminated, and it decodes back to the frame |
| RecordAssembler.PointBuilder.constructor | backend/writeToInfluxLoraS.js:8 | a new point has the measurement name, no timestamp, no tags and no fields |
| RecordAssembler.PointBuilder.Timestamp | backend/writeToInfluxLoraS.js:9 | sets the timestamp and nothing else |
| RecordAssembler.PointBuilder.Tag | backend/writeToInfluxLoraS.js:10-13 | sets one tag (a later call with the same name wins) and nothing else |
| RecordAssembler.PointBuilder.FloatField | backend/writeToInfluxLoraS.js:15-17 | sets one float field and nothing else |
| RecordAssembler.PointBuilder.IntField | backend/writeToInfluxLoraS.js:19 | sets one integer field and nothing else |
| RecordAssembler.PointBuilder.BooleanField | backend/writeToInfluxLoraS.js:20 | sets one boolean field and nothing else |
| RecordAssembler.DevicePoint | backend/writeToInfluxLoraS.js:8-52 | the point `writeToInfluxDB` builds, as a value; BuildDevicePoint is proved to build it, and TagsExact, TimestampIsProcessingTime, FieldNames and the field lemmas state its content |
| RecordAssembler.BuildDevicePoint | backend/writeToInfluxLoraS.js:8-52 | the builder chain and its three conditional extensions produce the point `DevicePoint` describes |
| RecordAssembler.TagsExact | backend/writeToInfluxLoraS.js:10-13 | exactly four tags, taken from devEUI, gatewayId, radio.codeRate and frame.devAddr |
| RecordAssembler.TimestampIsProcessingTime | backend/writeToInfluxLoraS.js:8-9 | the measurement is `deviceData`, the timestamp is the processing time, and the record's own `time` does not affect the point |
| RecordAssembler.NamesDisjoint | backend/writeToInfluxLoraS.js:15-51 | no reading field shares a name with a radio or frame field |
| RecordAssembler.ReadingFieldsKeep | backend/writeToInfluxLoraS.js:28-51 | adding the reading fields changes no other name and adds only reading names |
| RecordAssembler.MetadataFieldsValues | backend/writeToInfluxLoraS.js:15-26 | each radio and frame field under its name, with its builder type |
| RecordAssembler.MetadataFieldsTyped | backend/writeToInfluxLoraS.js:15-26 | the radio and frame fields are on every point, with or without data |
| RecordAssembler.FieldNames | backend/writeToInfluxLoraS.js:15-51 | the field names are the metadata names, plus the reading names that the data, location and signal quality present contribute |
| RecordAssembler.ReadingScalarValues | backend/writeToInfluxLoraS.js:29-45 | the environment and status fields carry the decoded values: floats for temperature, humidity and pressure, ints for battery, time to fix, speed and power |
| RecordAssembler.ReadingOptionalValues | backend/writeToInfluxLoraS.js:33-51 | the location and payload signal fields exactly when the reading has them, with their values |
| RecordAssembler.ReadingFieldsTyped | backend/writeToInfluxLoraS.js:28-45 | with data, the environment, status and location fields carry their decoded values with their builder types (the payload signal fields are stated by SignalFieldsDistinct) |
| RecordAssembler.SignalFieldsDistinct | backend/writeToInfluxLoraS.js:47-51 | the payload's snr/rssi go to `payloadSnr`/`payloadRssi`, and the gateway's `snr`/`rssi` are kept |
| RecordAssembler.StorageSink.constructor | backend/writeToInfluxLoraS.js:54-56 | a new store with nothing written |
| RecordAssembler.StorageSink.WritePoint | backend/writeToInfluxLoraS.js:54-56 | a write succeeds exactly when the store accepts, and then appends the point to the bucket |
| RecordAssembler.WriteToInfluxDB | backend/writeToInfluxLoraS.js:4-61 | the point for the record is stored in `GSR` exactly when the store accepts; otherwise nothing is stored and the failure is reported to the caller |
| QueryShaping.FirstIndex | backend/influxController.js:69-82 | the index of the first occurrence, which orders the values a `Set` keeps: it holds x and no earlier index does |
| QueryShaping.Distinct | backend/influxController.js:69-82 | the values of a sequence, each once, in first-seen order, as a `Set` or an `includes`-guarded push keeps them; DistinctMembers, DistinctNoDuplicates, DistinctOrder and DistinctStep state it |
| QueryShaping.DistinctMembers | backend/influxController.js:69-82 | the deduplicated list has exactly the members of the input |
| QueryShaping.DistinctNoDuplicates | backend/influxController.js:69-82 | the deduplicated list has no duplicates |
| QueryShaping.FirstIndexPrefix | backend/influxController.js:69-82 | a first occurrence inside a prefix is the first occurrence in the whole list |
| QueryShaping.DistinctOrder | backend/influxController.js:69-82 | the deduplicated list is in first-seen order: of any two listed values the earlier one occurs first in the input |
| QueryShaping.DistinctHas | backend/influxController.js:69-82 | membership in the deduplicated list is membership in the input |
| QueryShaping.DistinctStep | backend/influxController.js:73 | adding a value appends it only when it is new |
| QueryShaping.GetDevEuiList | backend/influxController.js:69-82 | the device list is the input deduplicated in first-seen order, with no duplicates, holding exactly the devEuis of the rows |
| QueryShaping.Kept | backend/influxController.js:353-373 | the fields outside FIELDS_TO_EXCLUDE, in order; KeptMembers states it |
| QueryShaping.KeptMembers | backend/influxController.js:353-373 | the kept fields are exactly the input fields outside the exclusion list |
| QueryShaping.GetNotificationData | backend/influxController.js:353-373 | the available fields are the non-excluded input fields deduplicated in first-seen order: no duplicates, nothing excluded, none missing |
| QueryShaping.DevEuis | backend/influxController.js:182 | one devEui per row |
| QueryShaping.LastInSlot | backend/influxController.js:186-191 | a slot's value comes from some row of the device whose field maps to that slot |
| QueryShaping.BuildTable | backend/influxController.js:181-193 | the `formattedResults` object after the `forEach`, as a value; BuildTableShape, BuildTableTimestamp and BuildTablePlacement state it |
| QueryShaping.Formatted | backend/influxController.js:181-195 | `Object.values` of that object; TableDataEntry, MapDataEntry and TableUnmappedDevice state it entry by entry |
| QueryShaping.LastValue | backend/influxController.js:186-191 | the value of the last row of a device with a field; LastValueAt and LastValueAbsent state it |
| QueryShaping.LastValueAt | backend/influxController.js:186-191 | a later row overwrites: when row i is the device's last row with that field, the value is row i's |
| QueryShaping.FormatDeviceEntries | backend/influxController.js:181-195 | the per-device loop and `Object.values` give the table the specification function `Formatted` describes |
| QueryShaping.GetTableData | backend/influxController.js:171-195 | table data is `Formatted` for the table field map, with timestamps |
| QueryShaping.GetMapData | backend/influxController.js:242-264 | map data is `Formatted` for the map field map, without timestamps |
| QueryShaping.DevEuisSnoc | backend/influxController.js:181 | the devEuis of rows plus one row |
| QueryShaping.AccumulateStep | backend/influxController.js:182-192 | one row changes only its device's entry (created when absent) and appends the device to the order when it is new |
| QueryShaping.PlaceLookup | backend/influxController.js:186-191 | placing a value sets only the slot its field maps to and keeps the device and timestamp |
| QueryShaping.ShapeStep | backend/influxController.js:183-185 | one row keeps the table shaped: order deduplicated, keys exactly the devices seen, each entry named by its key |
| QueryShaping.BuildTableShape | backend/influxController.js:181-195 | the table holds one entry per device seen, in first-seen order, each named by its device |
| QueryShaping.FirstTime | backend/influxController.js:183-185 | a first time exists exactly for the devices seen |
| QueryShaping.FirstTimeIndex | backend/influxController.js:183-185 | the first time is the time of the device's first row |
| QueryShaping.StampStep | backend/influxController.js:183-185 | one row keeps every timestamp at its device's first row's time, or absent when unstamped |
| QueryShaping.BuildTableTimestamp | backend/influxController.js:183-185 | each entry's timestamp is its device's first row's time (table) or absent (map): later rows never change it |
| QueryShaping.LastInSlotUnseen | backend/influxController.js:183-185 | a device with no rows has no slot value |
| QueryShaping.PlaceStep | backend/influxController.js:186-191 | one row keeps every slot at the last value of the rows feeding it |
| QueryShaping.BuildTablePlacement | backend/influxController.js:181-193 | every localisation and top-level key holds the latest value of the fields that map to it, and only those keys are set |
| QueryShaping.ValuesOfIndex | backend/influxController.js:195 | `Object.values` has one entry per ordered key, in order |
| QueryShaping.FormattedEntry | backend/influxController.js:195 | entry i of the result is the table entry of the i-th distinct device |
| QueryShaping.LastInSlotOnlyField | backend/influxController.js:186-191 | a slot fed by one field only holds that field's latest value |
| QueryShaping.TableSlotOf | backend/influxController.js:173-179 | the table field map in closed form: latitude/longitude go under localisation as lat/lng, snr, rssi and battery at the top, everything else nowhere |
| QueryShaping.MapSlotOf | backend/influxController.js:244-248 | the map field map in closed form: latitude/longitude under localisation, battery at the top |
| QueryShaping.TableLocalisation | backend/influxController.js:187-188 | table localisation holds the latest latitude as lat and longitude as lng, and no other key |
| QueryShaping.TableReadings | backend/influxController.js:189-190 | the table's top level holds the latest snr, rssi and battery, and no other reading |
| QueryShaping.MapLocalisation | backend/influxController.js:256-257 | map localisation holds the latest latitude and longitude, and no other key |
| QueryShaping.MapReadings | backend/influxController.js:258-259 | the map's top level holds the latest battery only |
| QueryShaping.TableDataEntry | backend/influxController.js:171-195 | entry i of the table: the i-th distinct device, stamped with its first row's time, lat/lng/snr/rssi/battery the latest values, and no other keys |
| QueryShaping.MapDataEntry | backend/influxController.js:242-264 | entry i of the map: the i-th distinct device, no timestamp, lat/lng/battery the latest values, and no other keys |
| QueryShaping.LastValueAbsent | backend/influxController.js:186 | a field a device never reports has no latest value |
| QueryShaping.TableUnmappedDevice | backend/influxController.js:183-186 | a device whose rows all carry unmapped fields still appears, with an empty localisation and no readings |
| QueryShaping.FindByTimestamp | backend/influxController.js:316 | `find` returns the first point with the timestamp, or none when no point has it |
| QueryShaping.Track | backend/influxController.js:313-333 | `locationData` after the `forEach`, as a value; TrackTimestamps and TrackValues state it |
| QueryShaping.GetTrackingData | backend/influxController.js:311-333 | the tracking loop computes `Track` of the rows |
| QueryShaping.Times | backend/influxController.js:315 | one time per row |
| QueryShaping.TimesSnoc | backend/influxController.js:313 | the times of rows plus one row |
| QueryShaping.Timestamps | backend/influxController.js:316-320 | one timestamp per point |
| QueryShaping.AddTimestamps | backend/influxController.js:316-320 | one row adds a point only for a new time |
| QueryShaping.TrackTimestamps | backend/influxController.js:311-333 | the track has one point per distinct timestamp, in first-seen order |
| QueryShaping.LastForTime | backend/influxController.js:322-331 | a value at a time comes from some row at that time with that field |
| QueryShaping.LastForTimeAt | backend/influxController.js:322-331 | a later row overwrites: when row i is the last row at that time with that field, the value at that time is row i's |
| QueryShaping.LastForTimeSnoc | backend/influxController.js:322-331 | the latest value after one more row |
| QueryShaping.KeepTracks | backend/influxController.js:316 | a row at another time leaves a point's values as they were |
| QueryShaping.FillTracks | backend/influxController.js:322-331 | the switch keeps a point at the latest latitude, longitude and battery of its time |
| QueryShaping.LastForTimeUnseen | backend/influxController.js:317-320 | a new point starts with no localisation and a null battery |
| QueryShaping.TrackStep | backend/influxController.js:313-332 | one row keeps every point at the latest values of its time |
| QueryShaping.TrackValues | backend/influxController.js:311-333 | each point holds the latest latitude, longitude and battery of its timestamp (null battery when none), and no other localisation key |
| Dispatch.BroadcastHub.constructor | backend/mqttClientLoraS.js:68 | a hub with nothing broadcast |
| Dispatch.BroadcastHub.Broadcast | backend/mqttClientLoraS.js:68 | a broadcast succeeds exactly when the hub accepts and then records the record |
| Dispatch.WithTime | backend/mqttClientLoraS.js:63-64 | a truthy time is kept and a missing or empty one becomes the clock, leaving every other field unchanged |
| Dispatch.Dispatched | backend/mqttClientLoraS.js:52-64 | the record handed to the sinks, or none; DispatchedExactly and DispatchedRecord state it |
| Dispatch.HandleOutcome | backend/mqttClientLoraS.js:46-76 | how a message ends, given whether the sinks succeed; HandleMessage is proved to end that way and BroadcastAfterStorage states the order of the checks |
| Dispatch.HandleMessage | backend/mqttClientLoraS.js:46-76 | the outcome is failed processing, missing devEUI, storage failure, broadcast failure or delivery, in that order of checks; the record is stored exactly on the last two and broadcast only on delivery |
| Dispatch.DispatchedExactly | backend/mqttClientLoraS.js:52-61 | a message reaches the sinks exactly when processing succeeds with a truthy devEUI |
| Dispatch.DispatchedRecord | backend/mqttClientLoraS.js:57-64 | the dispatched record is the processed one with only its time possibly filled, and it names a device |
| Dispatch.BroadcastAfterStorage | backend/mqttClientLoraS.js:67-68 | a broadcast is attempted only after a successful write, and a failed write ends the message as a storage failure |

## Left out

- The MQTT connection, subscription, reconnection and the websocket server are not modelled. They
  are transport. The broadcast is a sink that accepts or refuses.
- `JSON.parse` and base64 decoding are not modelled. A message arrives either as unparseable text or
  as a parsed envelope whose payload is absent, empty text, decoded bytes or a value the base64
  decoder rejects.
- MessageProcessing.ProcessMqttMessage: for the JSON document `null` the source throws. Only
  `JSON.parse` is inside the try (backend/mqttDataProcessingLoraS.js:72-77), so the read of
  `gatewayID` at line 79 raises a TypeError out of `processMqttMessage`. The model folds that
  document into `Unparseable` and returns None instead. Both end with nothing stored or broadcast,
  because the handler's catch (backend/mqttClientLoraS.js:69-75) swallows the throw.
- MessageProcessing.Envelope: the radio and frame members (rssi, snr, uplinkID, frequency,
  bandwidth, modulation, spreadingFactor, codeRate, adr, dr, fCnt, fPort, devAddr, confirmed,
  ackBit) are taken as present and of their expected type. The source copies whatever the parsed
  object holds, `undefined` included, and passes it on to the point builder. Only gatewayID, devEUI
  and time are optional in the model.
- The handler's `!message` check is not modelled. A received MQTT message is always a `Buffer`,
  which is truthy.
- The Influx client is not modelled: its HTTP I/O, the Flux query text, `flush` batching and
  line-protocol serialisation. The store is a sink holding the points written, and the controllers
  receive the query rows as a sequence.
- The Point library's own handling of `undefined` tag or field values and integer range checks is
  not modelled. The devEui tag is kept as an optional string, because devEUI may be absent; the
  other three tags always carry a string, as the envelope members they come from are taken as
  present.
- Request validation (Joi schemas), `getData`, `postAlert`, `compareAndLog`, the routes and token
  checks are not modelled. They are outside the codec and record shaping.
- Logging is not modelled, and the error text of every failure is a plain outcome.
- The clocks (`new Date()`, `toISOString()`) are parameters.
- The async/await scheduling of the handler is not modelled. Each message runs to completion.
- Floating point is not modelled. Decoded degrees, scalings and stored values are exact reals, and
  `parseFloat` of a numeric `_value` is the identity.
- The firmware's sensor reading, GPS fix, the float-to-integer conversions before packing and the
  serial AT command output are not modelled. `SendLoRa` starts from the integer sample.
- `Object.values` is not modelled for integer-like keys. JavaScript lists such keys first, the model
  keeps insertion order for all keys (devEuis are hexadecimal strings).
- Inherited-property names for `in` are not modelled. Fields are tested against the field map's own
  keys only.
- QueryShaping.GetTrackingData: the source pushes the new point and then mutates it through the
  alias. The model fills the point first and then writes it into the sequence. The result is the same.

## Findings

| source | as written | input that shows it | evidently intended | confidence | as-written member | corrected member |
|---|---|---|---|---|---|---|
| tracking_echostar.cpp:386-387 | `char str[32]` receives `array_to_string` of the 22-byte frame, which writes 44 digits and a NUL at index 44 | any sample: 22 bytes need 45 characters, 13 beyond the buffer | a string buffer of at least 2·22+1 = 45 characters | not executed | DeviceFrame.SendLoRaStrTooSmall | DeviceFrame.SendLoRaHex |
