/** `writeToInfluxDB`: the `processedData` record turned into one `deviceData` point and written to
    the `GSR` bucket; a failed write is rethrown to the caller. */
module RecordAssembler {
  import opened Common
  import opened PayloadCodec
  import opened MessageProcessing

  /** The value of a point field, typed by the builder call that added it. */
  datatype FieldValue = Float(f: real) | Int(i: int) | Bool(b: bool)

  /** A point as the builder holds it: measurement, timestamp, tags and typed fields. A tag value
      is `None` when the record member it is read from is `undefined`. */
  datatype Point = Point(
    measurement: string,
    timestamp: Option<int>,
    tags: map<string, Option<string>>,
    fields: map<string, FieldValue>)

  const BUCKET: string := "GSR"
  const MEASUREMENT: string := "deviceData"

  /** The client library's `Point` builder: every call records one tag or field, a later call with
      the same name replacing the earlier value. */
  class PointBuilder {
    var measurement: string
    var timestamp: Option<int>
    var tags: map<string, Option<string>>
    var fields: map<string, FieldValue>

    constructor(name: string)
      ensures measurement == name && timestamp == None && tags == map[] && fields == map[]
    {
      measurement := name;
      timestamp := None;
      tags := map[];
      fields := map[];
    }

    function ToPoint(): Point
      reads this
    {
      Point(measurement, timestamp, tags, fields)
    }

    method Timestamp(t: int)
      modifies this
      ensures timestamp == Some(t)
      ensures measurement == old(measurement) && tags == old(tags) && fields == old(fields)
    {
      timestamp := Some(t);
    }

    method Tag(name: string, value: Option<string>)
      modifies this
      ensures tags == old(tags)[name := value]
      ensures measurement == old(measurement) && timestamp == old(timestamp) && fields == old(fields)
    {
      tags := tags[name := value];
    }

    method FloatField(name: string, value: real)
      modifies this
      ensures fields == old(fields)[name := Float(value)]
      ensures measurement == old(measurement) && timestamp == old(timestamp) && tags == old(tags)
    {
      fields := fields[name := Float(value)];
    }

    method IntField(name: string, value: int)
      modifies this
      ensures fields == old(fields)[name := Int(value)]
      ensures measurement == old(measurement) && timestamp == old(timestamp) && tags == old(tags)
    {
      fields := fields[name := Int(value)];
    }

    method BooleanField(name: string, value: bool)
      modifies this
      ensures fields == old(fields)[name := Bool(value)]
      ensures measurement == old(measurement) && timestamp == old(timestamp) && tags == old(tags)
    {
      fields := fields[name := Bool(value)];
    }
  }

  // ---------------------------------------------------------------------------------------------
  // The point, as a value

  function DeviceTags(pd: ProcessedData): map<string, Option<string>> {
    map[]["devEui" := pd.devEUI]["gatewayId" := Some(pd.gatewayId)]
         ["codeRate" := Some(pd.radio.codeRate)]["devAddr" := Some(pd.frame.devAddr)]
  }

  /** The radio and frame fields, added on every record. */
  function MetadataFields(pd: ProcessedData): map<string, FieldValue> {
    map[]["rssi" := Float(pd.rssi)]["snr" := Float(pd.snr)]
         ["frequency" := Float(pd.radio.frequency)]["bandwidth" := Float(pd.radio.bandwidth)]
         ["spreadingFactor" := Int(pd.radio.spreadingFactor)]["adr" := Bool(pd.radio.adr)]
         ["dr" := Int(pd.radio.dr)]
         ["fCnt" := Int(pd.frame.fCnt)]["fPort" := Int(pd.frame.fPort)]
         ["confirmed" := Bool(pd.frame.confirmed)]["ackBit" := Bool(pd.frame.ackBit)]
  }

  /** The fields a decoded reading adds, in the order the builder adds them. */
  function ReadingFields(fs: map<string, FieldValue>, d: DecodedReading): map<string, FieldValue> {
    var env := fs["temperature" := Float(d.temperature)]["humidity" := Float(d.humidity)]
                 ["pressure" := Float(d.pressure as real)];
    var located :=
      if d.location.Some? then
        env["latitude" := Float(d.location.value.latitude)]
           ["longitude" := Float(d.location.value.longitude)]
           ["altitude" := Float(d.location.value.altitude)]
           ["satellites" := Int(d.location.value.satellites)]
      else env;
    var status := located["battery" := Int(d.battery)]["timeToFix" := Int(d.timeToFix)]
                         ["speed" := Int(d.speed)]["power" := Int(d.power)];
    if d.signalQuality.Some? then
      status["payloadSnr" := Float(d.signalQuality.value.snr as real)]
            ["payloadRssi" := Float(d.signalQuality.value.rssi as real)]
    else status
  }

  /** The point `writeToInfluxDB` builds for a record at processing time `now`. */
  function DevicePoint(pd: ProcessedData, now: int): Point {
    var meta := MetadataFields(pd);
    Point(MEASUREMENT, Some(now), DeviceTags(pd),
          if pd.data.Some? then ReadingFields(meta, pd.data.value) else meta)
  }

  /** Lines 8-52 of `writeToInfluxDB`: the builder chain and its three conditional extensions. */
  method BuildDevicePoint(pd: ProcessedData, now: int) returns (point: PointBuilder)
    ensures fresh(point)
    ensures point.ToPoint() == DevicePoint(pd, now)
  {
    point := new PointBuilder(MEASUREMENT);
    point.Timestamp(now);
    point.Tag("devEui", pd.devEUI);
    point.Tag("gatewayId", Some(pd.gatewayId));
    point.Tag("codeRate", Some(pd.radio.codeRate));
    point.Tag("devAddr", Some(pd.frame.devAddr));
    point.FloatField("rssi", pd.rssi);
    point.FloatField("snr", pd.snr);
    point.FloatField("frequency", pd.radio.frequency);
    point.FloatField("bandwidth", pd.radio.bandwidth);
    point.IntField("spreadingFactor", pd.radio.spreadingFactor);
    point.BooleanField("adr", pd.radio.adr);
    point.IntField("dr", pd.radio.dr);
    point.IntField("fCnt", pd.frame.fCnt);
    point.IntField("fPort", pd.frame.fPort);
    point.BooleanField("confirmed", pd.frame.confirmed);
    point.BooleanField("ackBit", pd.frame.ackBit);
    assert point.fields == MetadataFields(pd);
    if pd.data.Some? {
      var d := pd.data.value;
      point.FloatField("temperature", d.temperature);
      point.FloatField("humidity", d.humidity);
      point.FloatField("pressure", d.pressure as real);
      if d.location.Some? {
        point.FloatField("latitude", d.location.value.latitude);
        point.FloatField("longitude", d.location.value.longitude);
        point.FloatField("altitude", d.location.value.altitude);
        point.IntField("satellites", d.location.value.satellites);
      }
      point.IntField("battery", d.battery);
      point.IntField("timeToFix", d.timeToFix);
      point.IntField("speed", d.speed);
      point.IntField("power", d.power);
      if d.signalQuality.Some? {
        point.FloatField("payloadSnr", d.signalQuality.value.snr as real);
        point.FloatField("payloadRssi", d.signalQuality.value.rssi as real);
      }
    }
  }

  // ---------------------------------------------------------------------------------------------
  // Properties of the point

  /** Exactly four tags, read from `devEUI`, `gatewayId`, `radio.codeRate` and `frame.devAddr`. */
  lemma TagsExact(pd: ProcessedData, now: int)
    ensures var tags := DevicePoint(pd, now).tags;
      && tags.Keys == {"devEui", "gatewayId", "codeRate", "devAddr"}
      && tags["devEui"] == pd.devEUI && tags["gatewayId"] == Some(pd.gatewayId)
      && tags["codeRate"] == Some(pd.radio.codeRate) && tags["devAddr"] == Some(pd.frame.devAddr)
  {
  }

  /** The measurement is `deviceData` and the timestamp is the processing time: the record's own
      `time` plays no part in the point. */
  lemma TimestampIsProcessingTime(pd: ProcessedData, now: int, time: Option<string>)
    ensures DevicePoint(pd, now).measurement == MEASUREMENT
    ensures DevicePoint(pd, now).timestamp == Some(now)
    ensures DevicePoint(pd.(time := time), now) == DevicePoint(pd, now)
  {
  }

  const READING_NAMES: set<string> := {"temperature", "humidity", "pressure", "latitude",
    "longitude", "altitude", "satellites", "battery", "timeToFix", "speed", "power",
    "payloadSnr", "payloadRssi"}

  const METADATA_NAMES: set<string> := {"rssi", "snr", "frequency", "bandwidth",
    "spreadingFactor", "adr", "dr", "fCnt", "fPort", "confirmed", "ackBit"}

  /** No reading field shares its name with a metadata field. */
  lemma NamesDisjoint()
    ensures METADATA_NAMES !! READING_NAMES
  {
  }

  /** Adding the reading fields leaves every other name as it was. */
  lemma ReadingFieldsKeep(fs: map<string, FieldValue>, d: DecodedReading)
    ensures forall k :: k in fs && k !in READING_NAMES ==>
      k in ReadingFields(fs, d) && ReadingFields(fs, d)[k] == fs[k]
    ensures ReadingFields(fs, d).Keys <= fs.Keys + READING_NAMES
  {
  }

  /** The radio and frame fields, each under its name with its type. */
  lemma MetadataFieldsValues(pd: ProcessedData)
    ensures var f := MetadataFields(pd);
      && f.Keys == METADATA_NAMES
      && f["rssi"] == Float(pd.rssi) && f["snr"] == Float(pd.snr)
      && f["frequency"] == Float(pd.radio.frequency) && f["bandwidth"] == Float(pd.radio.bandwidth)
      && f["spreadingFactor"] == Int(pd.radio.spreadingFactor) && f["dr"] == Int(pd.radio.dr)
      && f["fCnt"] == Int(pd.frame.fCnt) && f["fPort"] == Int(pd.frame.fPort)
      && f["adr"] == Bool(pd.radio.adr) && f["confirmed"] == Bool(pd.frame.confirmed)
      && f["ackBit"] == Bool(pd.frame.ackBit)
  {
  }

  /** The radio and frame fields are present on every point, with or without data, each with its
      type: they agree with `MetadataFields` on every metadata name. */
  lemma MetadataFieldsTyped(pd: ProcessedData, now: int)
    ensures var f := DevicePoint(pd, now).fields;
      forall k :: k in METADATA_NAMES ==> k in f && f[k] == MetadataFields(pd)[k]
  {
    MetadataFieldsValues(pd);
    if pd.data.Some? {
      NamesDisjoint();
      ReadingFieldsKeep(MetadataFields(pd), pd.data.value);
    }
  }

  /** The field names of a point: the metadata fields, plus the seven reading fields when the
      record has data, the four location fields when the reading has a location, and the two
      payload signal fields when it has signal quality. */
  lemma FieldNames(pd: ProcessedData, now: int)
    ensures DevicePoint(pd, now).fields.Keys ==
      METADATA_NAMES
      + (if pd.data.Some? then {"temperature", "humidity", "pressure", "battery", "timeToFix",
                               "speed", "power"} else {})
      + (if pd.data.Some? && pd.data.value.location.Some?
         then {"latitude", "longitude", "altitude", "satellites"} else {})
      + (if pd.data.Some? && pd.data.value.signalQuality.Some?
         then {"payloadSnr", "payloadRssi"} else {})
  {
  }

  /** The values `ReadingFields` adds, each under its name, typed float or int as the builder
      calls them: first the seven fields every reading has... */
  lemma ReadingScalarValues(fs: map<string, FieldValue>, d: DecodedReading)
    ensures var f := ReadingFields(fs, d);
      && f["temperature"] == Float(d.temperature) && f["humidity"] == Float(d.humidity)
      && f["pressure"] == Float(d.pressure as real)
      && f["battery"] == Int(d.battery) && f["timeToFix"] == Int(d.timeToFix)
      && f["speed"] == Int(d.speed) && f["power"] == Int(d.power)
  {
  }

  /** ...then the location and payload signal fields, when the reading has them. */
  lemma ReadingOptionalValues(fs: map<string, FieldValue>, d: DecodedReading)
    ensures var f := ReadingFields(fs, d);
      && (d.location.Some? ==>
            && f["latitude"] == Float(d.location.value.latitude)
            && f["longitude"] == Float(d.location.value.longitude)
            && f["altitude"] == Float(d.location.value.altitude)
            && f["satellites"] == Int(d.location.value.satellites))
      && (d.signalQuality.Some? ==>
            && f["payloadSnr"] == Float(d.signalQuality.value.snr as real)
            && f["payloadRssi"] == Float(d.signalQuality.value.rssi as real))
  {
  }

  /** With data, the reading fields carry the decoded values, typed float or int as the builder
      calls them. */
  lemma ReadingFieldsTyped(pd: ProcessedData, now: int)
    requires pd.data.Some?
    ensures var f := DevicePoint(pd, now).fields; var d := pd.data.value;
      && f["temperature"] == Float(d.temperature) && f["humidity"] == Float(d.humidity)
      && f["pressure"] == Float(d.pressure as real)
      && f["battery"] == Int(d.battery) && f["timeToFix"] == Int(d.timeToFix)
      && f["speed"] == Int(d.speed) && f["power"] == Int(d.power)
      && (d.location.Some? ==>
            && f["latitude"] == Float(d.location.value.latitude)
            && f["longitude"] == Float(d.location.value.longitude)
            && f["altitude"] == Float(d.location.value.altitude)
            && f["satellites"] == Int(d.location.value.satellites))
  {
    ReadingScalarValues(MetadataFields(pd), pd.data.value);
    ReadingOptionalValues(MetadataFields(pd), pd.data.value);
  }

  /** The payload's own signal quality is kept apart from the gateway's: `payloadSnr` and
      `payloadRssi` hold the decoded values while `snr` and `rssi` keep the radio metadata. */
  lemma SignalFieldsDistinct(pd: ProcessedData, now: int)
    requires pd.data.Some? && pd.data.value.signalQuality.Some?
    ensures var f := DevicePoint(pd, now).fields; var q := pd.data.value.signalQuality.value;
      && f["payloadSnr"] == Float(q.snr as real) && f["payloadRssi"] == Float(q.rssi as real)
      && f["snr"] == Float(pd.snr) && f["rssi"] == Float(pd.rssi)
  {
    ReadingOptionalValues(MetadataFields(pd), pd.data.value);
    MetadataFieldsTyped(pd, now);
    MetadataFieldsValues(pd);
    assert "snr" in METADATA_NAMES && "rssi" in METADATA_NAMES;
  }

  // ---------------------------------------------------------------------------------------------
  // Writing

  /** The time-series store behind `getWriteApiForTenant`: `writePoint` followed by `flush` either
      stores the point in the bucket or fails, as `accepting` says. */
  class StorageSink {
    var accepting: bool
    var stored: seq<(string, Point)>

    constructor(accepting: bool)
      ensures this.accepting == accepting && stored == []
    {
      this.accepting := accepting;
      stored := [];
    }

    method WritePoint(bucket: string, p: Point) returns (ok: bool)
      modifies this
      ensures ok == accepting && accepting == old(accepting)
      ensures stored == if ok then old(stored) + [(bucket, p)] else old(stored)
    {
      ok := accepting;
      if ok {
        stored := stored + [(bucket, p)];
      }
    }
  }

  /** `writeToInfluxDB`: build the point, write and flush it to `GSR`. `ok` is false exactly when
      the write failed, the error the code logs and rethrows. */
  method WriteToInfluxDB(pd: ProcessedData, now: int, sink: StorageSink) returns (ok: bool)
    modifies sink
    ensures ok == old(sink.accepting) && sink.accepting == old(sink.accepting)
    ensures sink.stored == if ok then old(sink.stored) + [(BUCKET, DevicePoint(pd, now))]
                           else old(sink.stored)
  {
    var point := BuildDevicePoint(pd, now);
    ok := sink.WritePoint(BUCKET, point.ToPoint());
  }
}
