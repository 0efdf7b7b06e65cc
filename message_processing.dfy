/** `processMqttMessage`: the envelope, parsed from the MQTT message, reshaped into the record the
    rest of the backend works with. */
module MessageProcessing {
  import opened Common
  import opened PayloadCodec

  /** The `frmPayload` member of the envelope. `Missing` and `EmptyText` are JavaScript-falsy;
      `Base64` is a non-empty string, given here by the bytes Node's base64 decoder yields for it;
      `NotText` is a truthy value `Buffer.from(…, "base64")` rejects (a number, a boolean, a plain
      object). */
  datatype PayloadField = Missing | EmptyText | Base64(bytes: seq<Byte>) | NotText

  /** The members of the parsed JSON envelope the code reads. */
  datatype Envelope = Envelope(
    gatewayID: Option<string>,
    devEUI: Option<string>,
    time: Option<string>,
    rssi: real,
    snr: real,
    uplinkID: string,
    frequency: real,
    bandwidth: real,
    modulation: string,
    spreadingFactor: int,
    codeRate: string,
    adr: bool,
    dr: int,
    fCnt: int,
    fPort: int,
    devAddr: string,
    confirmed: bool,
    ackBit: bool,
    frmPayload: PayloadField)

  /** The received MQTT message: either text `JSON.parse` rejects, or a parsed envelope. */
  datatype Message = Unparseable | Parsed(envelope: Envelope)

  datatype Radio = Radio(
    frequency: real,
    bandwidth: real,
    modulation: string,
    spreadingFactor: int,
    codeRate: string,
    adr: bool,
    dr: int)

  datatype Frame = Frame(fCnt: int, fPort: int, devAddr: string, confirmed: bool, ackBit: bool)

  /** The `processedData` object. `data` is `null` (None) on a metadata-only record. */
  datatype ProcessedData = ProcessedData(
    time: Option<string>,
    devEUI: Option<string>,
    gatewayId: string,
    rssi: real,
    snr: real,
    uplinkID: string,
    radio: Radio,
    frame: Frame,
    data: Option<DecodedReading>)

  /** The record carries every piece of radio and frame metadata of the envelope unchanged. */
  predicate CopiesMetadata(env: Envelope, pd: ProcessedData) {
    && pd.time == env.time
    && pd.devEUI == env.devEUI
    && Some(pd.gatewayId) == env.gatewayID
    && pd.rssi == env.rssi
    && pd.snr == env.snr
    && pd.uplinkID == env.uplinkID
    && pd.radio.frequency == env.frequency
    && pd.radio.bandwidth == env.bandwidth
    && pd.radio.modulation == env.modulation
    && pd.radio.spreadingFactor == env.spreadingFactor
    && pd.radio.codeRate == env.codeRate
    && pd.radio.adr == env.adr
    && pd.radio.dr == env.dr
    && pd.frame.fCnt == env.fCnt
    && pd.frame.fPort == env.fPort
    && pd.frame.devAddr == env.devAddr
    && pd.frame.confirmed == env.confirmed
    && pd.frame.ackBit == env.ackBit
  }

  /** What `processMqttMessage` returns for a message, as a value: the specification of the method
      below, and what the message handler is specified against. */
  function Processed(msg: Message): Option<ProcessedData> {
    match msg
    case Unparseable => None
    case Parsed(env) =>
      if !Truthy(env.gatewayID) then None
      else
        var reading :=
          match env.frmPayload
          case Base64(bytes) => DecodePayload(bytes).ToOption()
          case _ => None;
        Some(ProcessedData(
          env.time, env.devEUI, env.gatewayID.value, env.rssi, env.snr, env.uplinkID,
          Radio(env.frequency, env.bandwidth, env.modulation, env.spreadingFactor,
                env.codeRate, env.adr, env.dr),
          Frame(env.fCnt, env.fPort, env.devAddr, env.confirmed, env.ackBit),
          reading))
  }

  /** `processMqttMessage`: build the metadata-only record, return early when there is no payload,
      otherwise try to decode the payload into `data`; a failed decode keeps the metadata-only record. */
  method ProcessMqttMessage(msg: Message) returns (r: Option<ProcessedData>)
    ensures r == Processed(msg)
    ensures msg.Unparseable? ==> r.None?
    ensures msg.Parsed? ==> (r.None? <==> !Truthy(msg.envelope.gatewayID))
    ensures r.Some? ==> CopiesMetadata(msg.envelope, r.value)
    ensures r.Some? ==>
      (r.value.data.Some? <==>
        msg.envelope.frmPayload.Base64? && |msg.envelope.frmPayload.bytes| >= MIN_BUFFER_LENGTH)
    ensures r.Some? && r.value.data.Some? ==>
      Ok(r.value.data.value) == DecodePayload(msg.envelope.frmPayload.bytes)
  {
    if msg.Unparseable? {
      return None;        // JSON.parse threw
    }
    var env := msg.envelope;
    if !Truthy(env.gatewayID) {
      return None;        // "Gateway ID missing in message"
    }
    var processedData := ProcessedData(
      time := env.time,
      devEUI := env.devEUI,
      gatewayId := env.gatewayID.value,
      rssi := env.rssi,
      snr := env.snr,
      uplinkID := env.uplinkID,
      radio := Radio(env.frequency, env.bandwidth, env.modulation, env.spreadingFactor,
                     env.codeRate, env.adr, env.dr),
      frame := Frame(env.fCnt, env.fPort, env.devAddr, env.confirmed, env.ackBit),
      data := None);
    if env.frmPayload.Missing? || env.frmPayload.EmptyText? {
      return Some(processedData);     // message without payload
    }
    if env.frmPayload.NotText? {
      return Some(processedData);     // Buffer.from threw: keep the metadata-only record
    }
    var decoded := DecodePayload(env.frmPayload.bytes);
    if decoded.Err? {
      return Some(processedData);     // decodePayload threw: keep the metadata-only record
    }
    processedData := processedData.(data := Some(decoded.value));
    return Some(processedData);
  }
}
