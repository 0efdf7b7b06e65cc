/** The MQTT "message" handler: decode the message, drop it when processing fails or the device is
    unnamed, default the uplink time, store the record, then broadcast it. Every failure ends the
    handler quietly with a logged outcome; nothing is thrown back to the transport. */
module Dispatch {
  import opened Common
  import opened MessageProcessing
  import opened RecordAssembler

  /** The websocket side of `broadcastToClients`: whether a broadcast succeeds, and the records
      broadcast so far. */
  class BroadcastHub {
    var accepting: bool
    var sent: seq<ProcessedData>

    constructor(accepting: bool)
      ensures this.accepting == accepting && sent == []
    {
      this.accepting := accepting;
      sent := [];
    }

    method Broadcast(pd: ProcessedData) returns (ok: bool)
      modifies this
      ensures ok == accepting && accepting == old(accepting)
      ensures sent == if ok then old(sent) + [pd] else old(sent)
    {
      ok := accepting;
      if ok {
        sent := sent + [pd];
      }
    }
  }

  /** How one message ends: dispatched to both sinks, or caught and logged at one of the four
      points where the handler throws or a sink fails. */
  datatype Outcome = Delivered | ProcessingFailed | DevEuiMissing | StorageFailed | BroadcastFailed

  /** The record with `time` kept when truthy and set to the handler's ISO clock otherwise. */
  function WithTime(pd: ProcessedData, nowIso: string): (r: ProcessedData)
    ensures Truthy(r.time) || nowIso == ""
    ensures r.time == if Truthy(pd.time) then pd.time else Some(nowIso)
    ensures r.(time := pd.time) == pd
  {
    if Truthy(pd.time) then pd else pd.(time := Some(nowIso))
  }

  /** The record handed to the sinks, or None when the handler stops before them. */
  function Dispatched(msg: Message, nowIso: string): Option<ProcessedData> {
    match Processed(msg)
    case None => None
    case Some(pd) => if !Truthy(pd.devEUI) then None else Some(WithTime(pd, nowIso))
  }

  /** The outcome of a message, given whether the write and the broadcast succeed. */
  function HandleOutcome(msg: Message, storeOk: bool, hubOk: bool): Outcome {
    match Processed(msg)
    case None => ProcessingFailed
    case Some(pd) =>
      if !Truthy(pd.devEUI) then DevEuiMissing
      else if !storeOk then StorageFailed
      else if !hubOk then BroadcastFailed
      else Delivered
  }

  /** The handler body inside its try/catch. `now` is the storage clock (`new Date()` in
      writeToInfluxDB), `nowIso` the handler's clock (`new Date().toISOString()`). */
  method HandleMessage(msg: Message, now: int, nowIso: string, store: StorageSink, hub: BroadcastHub)
    returns (outcome: Outcome)
    modifies store, hub
    ensures outcome == HandleOutcome(msg, old(store.accepting), old(hub.accepting))
    ensures store.accepting == old(store.accepting) && hub.accepting == old(hub.accepting)
    ensures store.stored ==
      if outcome == Delivered || outcome == BroadcastFailed
      then old(store.stored) + [(BUCKET, DevicePoint(Dispatched(msg, nowIso).value, now))]
      else old(store.stored)
    ensures hub.sent ==
      if outcome == Delivered then old(hub.sent) + [Dispatched(msg, nowIso).value] else old(hub.sent)
  {
    var processed := ProcessMqttMessage(msg);
    if processed.None? {
      return ProcessingFailed;
    }
    var processedData := processed.value;
    if !Truthy(processedData.devEUI) {
      return DevEuiMissing;
    }
    var timestamp := if Truthy(processedData.time) then processedData.time.value else nowIso;
    processedData := processedData.(time := Some(timestamp));
    assert processedData == WithTime(processed.value, nowIso);
    var stored := WriteToInfluxDB(processedData, now, store);
    if !stored {
      return StorageFailed;
    }
    var sent := hub.Broadcast(processedData);
    if !sent {
      return BroadcastFailed;
    }
    return Delivered;
  }

  /** A message reaches the sinks exactly when processing succeeds and names a device. */
  lemma DispatchedExactly(msg: Message, nowIso: string)
    ensures Dispatched(msg, nowIso).Some? ==> Processed(msg).Some? && Truthy(Processed(msg).value.devEUI)
    ensures Processed(msg).Some? && Truthy(Processed(msg).value.devEUI) ==> Dispatched(msg, nowIso).Some?
    ensures Dispatched(msg, nowIso).None? <==>
      HandleOutcome(msg, true, true) in {ProcessingFailed, DevEuiMissing}
  {
  }

  /** The dispatched record is the processed one with only `time` possibly filled in, and it always
      has a time when the clock string is non-empty. */
  lemma DispatchedRecord(msg: Message, nowIso: string)
    requires Dispatched(msg, nowIso).Some?
    ensures Dispatched(msg, nowIso).value.(time := Processed(msg).value.time) == Processed(msg).value
    ensures Truthy(Processed(msg).value.time) ==> Dispatched(msg, nowIso).value.time == Processed(msg).value.time
    ensures !Truthy(Processed(msg).value.time) ==> Dispatched(msg, nowIso).value.time == Some(nowIso)
    ensures nowIso != "" ==> Truthy(Dispatched(msg, nowIso).value.time)
    ensures Truthy(Dispatched(msg, nowIso).value.devEUI)
  {
    var pd := Processed(msg).value;
    assert Dispatched(msg, nowIso).value == WithTime(pd, nowIso);
  }

  /** A broadcast is attempted only after a successful storage write, and a failed write or
      broadcast never turns into a dropped-before-dispatch outcome. */
  lemma BroadcastAfterStorage(msg: Message, nowIso: string, storeOk: bool, hubOk: bool)
    ensures HandleOutcome(msg, storeOk, hubOk) in {Delivered, BroadcastFailed} ==>
      storeOk && Dispatched(msg, nowIso).Some?
    ensures HandleOutcome(msg, storeOk, hubOk) == Delivered <==>
      Dispatched(msg, nowIso).Some? && storeOk && hubOk
    ensures Dispatched(msg, nowIso).Some? && !storeOk ==> HandleOutcome(msg, storeOk, hubOk) == StorageFailed
  {
  }
}
