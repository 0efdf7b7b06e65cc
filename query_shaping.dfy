/** The reshaping the dashboard controllers apply to query rows once a query completes: distinct
    device and field lists, per-device latest-value tables and per-timestamp track points. */
module QueryShaping {
  import opened Common

  /** One row of a query result, the columns the controllers keep: `devEui`, `_field`, `_value`
      and `_time` (an RFC 3339 string as the client library returns it). */
  datatype Row = Row(devEui: string, field: string, value: real, time: string)

  // ---------------------------------------------------------------------------------------------
  // Distinct values in first-seen order

  predicate NoDuplicates<T(==)>(xs: seq<T>) {
    forall i, j :: 0 <= i < j < |xs| ==> xs[i] != xs[j]
  }

  /** The index of the first occurrence of x in xs. */
  function FirstIndex<T(==)>(xs: seq<T>, x: T): (r: nat)
    requires x in xs
    ensures r < |xs| && xs[r] == x
    ensures forall k :: 0 <= k < r ==> xs[k] != x
  {
    if xs[0] == x then 0 else 1 + FirstIndex(xs[1..], x)
  }

  /** The values of xs, each once, in the order of their first occurrence: what a JavaScript `Set`
      or an array grown with `if (!a.includes(x)) a.push(x)` holds after seeing xs. */
  function Distinct<T(==)>(xs: seq<T>): seq<T> {
    if |xs| == 0 then []
    else
      var d := Distinct(xs[..|xs| - 1]);
      if xs[|xs| - 1] in d then d else d + [xs[|xs| - 1]]
  }

  /** `Distinct` keeps every value and adds none. */
  lemma {:induction false} DistinctMembers<T>(xs: seq<T>)
    ensures forall x :: x in Distinct(xs) ==> x in xs
    ensures forall x :: x in xs ==> x in Distinct(xs)
    decreases |xs|
  {
    if |xs| > 0 {
      var init := xs[..|xs| - 1];
      DistinctMembers(init);
      assert xs == init + [xs[|xs| - 1]];
    }
  }

  /** `Distinct` holds each value once. */
  lemma {:induction false} DistinctNoDuplicates<T>(xs: seq<T>)
    ensures NoDuplicates(Distinct(xs))
    decreases |xs|
  {
    if |xs| > 0 {
      DistinctNoDuplicates(xs[..|xs| - 1]);
    }
  }

  /** The first occurrence of a value in a prefix that contains it is its first occurrence. */
  lemma FirstIndexPrefix<T>(xs: seq<T>, m: nat, x: T)
    requires m <= |xs| && x in xs[..m]
    ensures x in xs && FirstIndex(xs, x) == FirstIndex(xs[..m], x)
  {
    var p := FirstIndex(xs[..m], x);
    assert forall k :: 0 <= k <= p ==> xs[k] == xs[..m][k];
  }

  /** A value met only at the end of xs first occurs there. */
  lemma FirstIndexLast<T>(xs: seq<T>, x: T)
    requires |xs| > 0 && xs[|xs| - 1] == x && x !in xs[..|xs| - 1]
    ensures x in xs && FirstIndex(xs, x) == |xs| - 1
  {
    assert forall k :: 0 <= k < |xs| - 1 ==> xs[k] == xs[..|xs| - 1][k];
  }

  /** `Distinct` lists values in the order of their first occurrence in xs: of two listed values,
      the earlier one occurs first. */
  lemma {:induction false} DistinctOrder<T>(xs: seq<T>, i: int, j: int)
    requires 0 <= i < j < |Distinct(xs)|
    ensures Distinct(xs)[i] in xs && Distinct(xs)[j] in xs
    ensures FirstIndex(xs, Distinct(xs)[i]) < FirstIndex(xs, Distinct(xs)[j])
    decreases |xs|
  {
    var n := |xs| - 1;
    var init := xs[..n];
    var d := Distinct(init);
    assert Distinct(xs) == if xs[n] in d then d else d + [xs[n]];
    var a, b := Distinct(xs)[i], Distinct(xs)[j];
    assert a == d[i];
    DistinctHas(init, a);
    FirstIndexPrefix(xs, n, a);
    if j < |d| {
      DistinctOrder(init, i, j);
      assert b == d[j];
      DistinctHas(init, b);
      FirstIndexPrefix(xs, n, b);
    } else {
      DistinctHas(init, b);
      FirstIndexLast(xs, b);
    }
  }

  lemma DistinctHas<T>(xs: seq<T>, x: T)
    ensures x in Distinct(xs) <==> x in xs
  {
    DistinctMembers(xs);
  }

  /** One step of `Distinct`: the next value is appended unless it has been seen. */
  lemma DistinctStep<T>(xs: seq<T>, x: T)
    ensures Distinct(xs + [x]) == if x in Distinct(xs) then Distinct(xs) else Distinct(xs) + [x]
  {
    assert (xs + [x])[..|xs|] == xs;
  }

  // ---------------------------------------------------------------------------------------------
  // getDevEuiList

  /** `getDevEuiList`: every `devEui` of the result rows added to a `Set`, then `Array.from` of the
      set, which lists values in insertion order. The set is held as that insertion-ordered list. */
  method GetDevEuiList(devEuis: seq<string>) returns (list: seq<string>)
    ensures list == Distinct(devEuis)
    ensures NoDuplicates(list)
    ensures forall d :: d in list ==> d in devEuis
    ensures forall d :: d in devEuis ==> d in list
  {
    list := [];
    var i := 0;
    while i < |devEuis|
      invariant i <= |devEuis|
      invariant list == Distinct(devEuis[..i])
    {
      DistinctStep(devEuis[..i], devEuis[i]);
      assert devEuis[..i + 1] == devEuis[..i] + [devEuis[i]];
      if devEuis[i] !in list {
        list := list + [devEuis[i]];
      }
      i := i + 1;
    }
    assert devEuis[..i] == devEuis;
    DistinctNoDuplicates(devEuis);
    DistinctMembers(devEuis);
  }

  // ---------------------------------------------------------------------------------------------
  // getNotificationData

  const FIELDS_TO_EXCLUDE: seq<string> := ["fCnt", "latitude", "longitude", "snr", "rssi", "spreadingFactor"]

  /** The field names that are not excluded, in order. */
  function Kept(fields: seq<string>): seq<string> {
    if |fields| == 0 then []
    else
      var init := Kept(fields[..|fields| - 1]);
      var f := fields[|fields| - 1];
      if f in FIELDS_TO_EXCLUDE then init else init + [f]
  }

  /** `Kept` keeps exactly the names that are not excluded. */
  lemma {:induction false} KeptMembers(fields: seq<string>)
    ensures forall f :: f in Kept(fields) ==> f in fields && f !in FIELDS_TO_EXCLUDE
    ensures forall f :: f in fields && f !in FIELDS_TO_EXCLUDE ==> f in Kept(fields)
    decreases |fields|
  {
    if |fields| > 0 {
      var init := fields[..|fields| - 1];
      KeptMembers(init);
      assert fields == init + [fields[|fields| - 1]];
    }
  }

  /** The `next()` accumulator of `getNotificationData`: a field is pushed when it is neither listed
      already nor excluded. The result is the distinct non-excluded fields in first-seen order. */
  method GetNotificationData(fields: seq<string>) returns (available: seq<string>)
    ensures available == Distinct(Kept(fields))
    ensures NoDuplicates(available)
    ensures forall f :: f in available ==> f in fields && f !in FIELDS_TO_EXCLUDE
    ensures forall f :: f in fields && f !in FIELDS_TO_EXCLUDE ==> f in available
  {
    available := [];
    var i := 0;
    while i < |fields|
      invariant i <= |fields|
      invariant available == Distinct(Kept(fields[..i]))
    {
      var f := fields[i];
      assert fields[..i + 1][..i] == fields[..i];
      DistinctStep(Kept(fields[..i]), f);
      if f !in available && f !in FIELDS_TO_EXCLUDE {
        available := available + [f];
      }
      i := i + 1;
    }
    assert fields[..i] == fields;
    DistinctNoDuplicates(Kept(fields));
    DistinctMembers(Kept(fields));
    KeptMembers(fields);
  }

  // ---------------------------------------------------------------------------------------------
  // getTableData and getMapData: one entry per device, latest value per mapped field

  /** The devEui column of the rows, in order. */
  function DevEuis(rows: seq<Row>): (r: seq<string>)
    ensures |r| == |rows|
  {
    seq(|rows|, i requires 0 <= i < |rows| => rows[i].devEui)
  }

  /** A formatted device object: `device`, the `localisation` object, the other mapped readings
      (top-level keys of the JavaScript object) and, for the table view, the `timestamp`. */
  datatype DeviceEntry = DeviceEntry(
    device: string,
    localisation: map<string, real>,
    readings: map<string, real>,
    timestamp: Option<string>)

  /** The `fieldMap` of getTableData. */
  const TABLE_FIELD_MAP: map<string, string> :=
    map["latitude" := "lat", "longitude" := "lng", "snr" := "snr", "rssi" := "rssi", "battery" := "battery"]

  /** The `fieldMap` of getMapData. */
  const MAP_FIELD_MAP: map<string, string> :=
    map["latitude" := "lat", "longitude" := "lng", "battery" := "battery"]

  /** Where a row's value lands in its device object. */
  datatype Slot = InLocalisation(key: string) | AtTop(key: string)

  /** Latitude and longitude go under `localisation`, other mapped fields to the top level, and
      fields outside the map nowhere. */
  function SlotOf(fieldMap: map<string, string>, field: string): Option<Slot> {
    if field !in fieldMap then None
    else if field == "latitude" || field == "longitude" then Some(InLocalisation(fieldMap[field]))
    else Some(AtTop(fieldMap[field]))
  }

  function Place(e: DeviceEntry, slot: Option<Slot>, value: real): DeviceEntry {
    match slot
    case None => e
    case Some(InLocalisation(k)) => e.(localisation := e.localisation[k := value])
    case Some(AtTop(k)) => e.(readings := e.readings[k := value])
  }

  /** `formattedResults`: the device objects by key, with the order in which the keys were added. */
  datatype Table = Table(order: seq<string>, entries: map<string, DeviceEntry>)

  function NewEntry(r: Row, stamped: bool): DeviceEntry {
    DeviceEntry(r.devEui, map[], map[], if stamped then Some(r.time) else None)
  }

  /** One `forEach` step: create the device object on first sight, then place the value. */
  function Accumulate(t: Table, r: Row, fieldMap: map<string, string>, stamped: bool): Table {
    var t1 := if r.devEui in t.entries then t
              else Table(t.order + [r.devEui], t.entries[r.devEui := NewEntry(r, stamped)]);
    Table(t1.order, t1.entries[r.devEui := Place(t1.entries[r.devEui], SlotOf(fieldMap, r.field), r.value)])
  }

  function BuildTable(rows: seq<Row>, fieldMap: map<string, string>, stamped: bool): Table {
    if |rows| == 0 then Table([], map[])
    else Accumulate(BuildTable(rows[..|rows| - 1], fieldMap, stamped), rows[|rows| - 1], fieldMap, stamped)
  }

  /** `Object.values`: the objects in key insertion order. */
  function ValuesOf(order: seq<string>, entries: map<string, DeviceEntry>): seq<DeviceEntry> {
    if |order| == 0 then []
    else (if order[0] in entries then [entries[order[0]]] else []) + ValuesOf(order[1..], entries)
  }

  /** Row `row` writes into `slot` of device d's object. */
  predicate FeedsSlot(row: Row, d: string, fieldMap: map<string, string>, slot: Slot) {
    row.devEui == d && SlotOf(fieldMap, row.field) == Some(slot)
  }

  /** The value of the last row of device d whose field lands in slot, the one that overwrote the
      others. */
  function LastInSlot(rows: seq<Row>, d: string, fieldMap: map<string, string>, slot: Slot): (r: Option<real>)
    ensures r.Some? ==> exists i :: 0 <= i < |rows| && FeedsSlot(rows[i], d, fieldMap, slot) && rows[i].value == r.value
  {
    if |rows| == 0 then None
    else
      var last := rows[|rows| - 1];
      if FeedsSlot(last, d, fieldMap, slot) then Some(last.value)
      else LastInSlot(rows[..|rows| - 1], d, fieldMap, slot)
  }

  /** The device objects the rows format to, in `Object.values` order. */
  function Formatted(rows: seq<Row>, fieldMap: map<string, string>, stamped: bool): seq<DeviceEntry> {
    var t := BuildTable(rows, fieldMap, stamped);
    ValuesOf(t.order, t.entries)
  }

  /** The `forEach` over the rows and the `Object.values` that follows it. */
  method FormatDeviceEntries(rows: seq<Row>, fieldMap: map<string, string>, stamped: bool)
    returns (finalResults: seq<DeviceEntry>)
    ensures finalResults == Formatted(rows, fieldMap, stamped)
  {
    var formatted: map<string, DeviceEntry> := map[];
    var keys: seq<string> := [];
    var i := 0;
    while i < |rows|
      invariant i <= |rows|
      invariant Table(keys, formatted) == BuildTable(rows[..i], fieldMap, stamped)
    {
      var r := rows[i];
      if r.devEui !in formatted {
        formatted := formatted[r.devEui := DeviceEntry(r.devEui, map[], map[], if stamped then Some(r.time) else None)];
        keys := keys + [r.devEui];
      }
      var e := formatted[r.devEui];
      if r.field in fieldMap {
        if r.field == "latitude" || r.field == "longitude" {
          e := e.(localisation := e.localisation[fieldMap[r.field] := r.value]);
        } else {
          e := e.(readings := e.readings[fieldMap[r.field] := r.value]);
        }
      }
      formatted := formatted[r.devEui := e];
      assert rows[..i + 1][..i] == rows[..i];
      i := i + 1;
    }
    assert rows[..i] == rows;
    finalResults := ValuesOf(keys, formatted);
  }

  /** getTableData's `complete()`: latitude, longitude, snr, rssi and battery, stamped with the
      time of the device's first row. */
  method GetTableData(rows: seq<Row>) returns (finalResults: seq<DeviceEntry>)
    ensures finalResults == Formatted(rows, TABLE_FIELD_MAP, true)
  {
    finalResults := FormatDeviceEntries(rows, TABLE_FIELD_MAP, true);
  }

  /** getMapData's `complete()`: latitude, longitude and battery, without a timestamp. */
  method GetMapData(rows: seq<Row>) returns (finalResults: seq<DeviceEntry>)
    ensures finalResults == Formatted(rows, MAP_FIELD_MAP, false)
  {
    finalResults := FormatDeviceEntries(rows, MAP_FIELD_MAP, false);
  }

  lemma DevEuisSnoc(rows: seq<Row>)
    requires |rows| > 0
    ensures DevEuis(rows) == DevEuis(rows[..|rows| - 1]) + [rows[|rows| - 1].devEui]
  {
  }

  /** The shape one `forEach` step keeps: the keys, in insertion order, are the distinct devEuis
      seen so far, and each object's `device` is its key. */
  ghost predicate Shaped(t: Table, devEuis: seq<string>) {
    && t.order == Distinct(devEuis)
    && (forall d :: d in t.entries ==> d in devEuis)
    && (forall d :: d in devEuis ==> d in t.entries)
    && (forall d :: d in t.entries ==> t.entries[d].device == d)
  }

  /** The device object a row is placed into: the existing one, or a fresh one. */
  function EntryBefore(t: Table, r: Row, stamped: bool): DeviceEntry {
    if r.devEui in t.entries then t.entries[r.devEui] else NewEntry(r, stamped)
  }

  /** t2 is t after the `forEach` step for row r, stated entry by entry. */
  ghost predicate StepOf(t: Table, t2: Table, r: Row, fieldMap: map<string, string>, stamped: bool) {
    && t2.entries == t.entries[r.devEui := Place(EntryBefore(t, r, stamped), SlotOf(fieldMap, r.field), r.value)]
    && t2.order == if r.devEui in t.entries then t.order else t.order + [r.devEui]
  }

  lemma AccumulateStep(t: Table, r: Row, fieldMap: map<string, string>, stamped: bool)
    ensures StepOf(t, Accumulate(t, r, fieldMap, stamped), r, fieldMap, stamped)
  {
  }

  /** Placing a value changes one slot and nothing else. */
  lemma PlaceLookup(e: DeviceEntry, slot: Option<Slot>, value: real, k: string)
    ensures Lookup(Place(e, slot, value).localisation, k) ==
      if slot == Some(InLocalisation(k)) then Some(value) else Lookup(e.localisation, k)
    ensures Lookup(Place(e, slot, value).readings, k) ==
      if slot == Some(AtTop(k)) then Some(value) else Lookup(e.readings, k)
    ensures Place(e, slot, value).device == e.device && Place(e, slot, value).timestamp == e.timestamp
  {
  }

  lemma ShapeStep(t: Table, t2: Table, r: Row, fieldMap: map<string, string>, stamped: bool, devEuis: seq<string>)
    requires Shaped(t, devEuis) && StepOf(t, t2, r, fieldMap, stamped)
    ensures Shaped(t2, devEuis + [r.devEui])
  {
    DistinctStep(devEuis, r.devEui);
    DistinctHas(devEuis, r.devEui);
    PlaceLookup(EntryBefore(t, r, stamped), SlotOf(fieldMap, r.field), r.value, "");
  }

  /** The keys of formattedResults are the distinct devEuis in first-seen order, and each object's
      `device` is its key. */
  lemma {:induction false} BuildTableShape(rows: seq<Row>, fieldMap: map<string, string>, stamped: bool)
    ensures Shaped(BuildTable(rows, fieldMap, stamped), DevEuis(rows))
    decreases |rows|
  {
    if |rows| > 0 {
      var n := |rows| - 1;
      var t := BuildTable(rows[..n], fieldMap, stamped);
      var t2 := BuildTable(rows, fieldMap, stamped);
      assert StepOf(t, t2, rows[n], fieldMap, stamped) by {
        AccumulateStep(t, rows[n], fieldMap, stamped);
      }
      BuildTableShape(rows[..n], fieldMap, stamped);
      ShapeStep(t, t2, rows[n], fieldMap, stamped, DevEuis(rows[..n]));
      DevEuisSnoc(rows);
    }
  }

  /** The `_time` of the first row of device d. */
  function FirstTime(rows: seq<Row>, d: string): (r: Option<string>)
    ensures r.Some? <==> d in DevEuis(rows)
  {
    if |rows| == 0 then None
    else
      var earlier := FirstTime(rows[..|rows| - 1], d);
      DevEuisSnoc(rows);
      if earlier.Some? then earlier
      else if rows[|rows| - 1].devEui == d then Some(rows[|rows| - 1].time)
      else None
  }

  /** `FirstTime` is the time of the row at the device's first index. */
  lemma {:induction false} FirstTimeIndex(rows: seq<Row>, d: string)
    requires d in DevEuis(rows)
    ensures FirstTime(rows, d) == Some(rows[FirstIndex(DevEuis(rows), d)].time)
    decreases |rows|
  {
    var n := |rows| - 1;
    var ds := DevEuis(rows);
    DevEuisSnoc(rows);
    assert ds[..n] == DevEuis(rows[..n]);
    if d in DevEuis(rows[..n]) {
      FirstTimeIndex(rows[..n], d);
      FirstIndexPrefix(ds, n, d);
    } else {
      assert forall k :: 0 <= k < n ==> ds[k] == DevEuis(rows[..n])[k];
      assert FirstIndex(ds, d) == n;
    }
  }

  /** Each device object carries the `_time` of the device's first row when the view is stamped,
      and no timestamp otherwise. */
  ghost predicate Stamped(t: Table, rows: seq<Row>, stamped: bool) {
    forall d :: d in t.entries ==> t.entries[d].timestamp == (if stamped then FirstTime(rows, d) else None)
  }

  lemma StampStep(t: Table, t2: Table, rows: seq<Row>, r: Row, fieldMap: map<string, string>, stamped: bool)
    requires Shaped(t, DevEuis(rows)) && Stamped(t, rows, stamped) && StepOf(t, t2, r, fieldMap, stamped)
    ensures Stamped(t2, rows + [r], stamped)
  {
    assert (rows + [r])[..|rows|] == rows;
    PlaceLookup(EntryBefore(t, r, stamped), SlotOf(fieldMap, r.field), r.value, "");
  }

  /** Each device object is stamped with the time of the device's first row (getTableData) or not at
      all (getMapData). */
  lemma {:induction false} BuildTableTimestamp(rows: seq<Row>, fieldMap: map<string, string>, stamped: bool)
    ensures Stamped(BuildTable(rows, fieldMap, stamped), rows, stamped)
    decreases |rows|
  {
    if |rows| > 0 {
      var n := |rows| - 1;
      var t := BuildTable(rows[..n], fieldMap, stamped);
      var t2 := BuildTable(rows, fieldMap, stamped);
      assert StepOf(t, t2, rows[n], fieldMap, stamped) by {
        AccumulateStep(t, rows[n], fieldMap, stamped);
      }
      BuildTableTimestamp(rows[..n], fieldMap, stamped);
      BuildTableShape(rows[..n], fieldMap, stamped);
      StampStep(t, t2, rows[..n], rows[n], fieldMap, stamped);
      assert rows[..n] + [rows[n]] == rows;
    }
  }

  /** A device with no rows has no filled slot. */
  lemma LastInSlotUnseen(rows: seq<Row>, d: string, fieldMap: map<string, string>, slot: Slot)
    requires d !in DevEuis(rows)
    ensures LastInSlot(rows, d, fieldMap, slot) == None
  {
    forall i | 0 <= i < |rows| ensures rows[i].devEui != d {
      assert DevEuis(rows)[i] == rows[i].devEui;
    }
  }

  /** Every slot of every device object holds the value of the last row of that device mapped to
      it, and a slot no row is mapped to is absent. */
  ghost predicate Placed(t: Table, rows: seq<Row>, fieldMap: map<string, string>) {
    forall d, k :: d in t.entries ==>
      && Lookup(t.entries[d].localisation, k) == LastInSlot(rows, d, fieldMap, InLocalisation(k))
      && Lookup(t.entries[d].readings, k) == LastInSlot(rows, d, fieldMap, AtTop(k))
  }

  lemma PlaceStep(t: Table, t2: Table, rows: seq<Row>, r: Row, fieldMap: map<string, string>, stamped: bool)
    requires Shaped(t, DevEuis(rows)) && Placed(t, rows, fieldMap) && StepOf(t, t2, r, fieldMap, stamped)
    ensures Placed(t2, rows + [r], fieldMap)
  {
    var rows2 := rows + [r];
    assert rows2[..|rows|] == rows;
    forall d, k | d in t2.entries
      ensures Lookup(t2.entries[d].localisation, k) == LastInSlot(rows2, d, fieldMap, InLocalisation(k))
      ensures Lookup(t2.entries[d].readings, k) == LastInSlot(rows2, d, fieldMap, AtTop(k))
    {
      if d == r.devEui {
        PlaceLookup(EntryBefore(t, r, stamped), SlotOf(fieldMap, r.field), r.value, k);
        if d !in t.entries {
          LastInSlotUnseen(rows, d, fieldMap, InLocalisation(k));
          LastInSlotUnseen(rows, d, fieldMap, AtTop(k));
        }
      }
    }
  }

  /** The value placement of getTableData and getMapData. */
  lemma {:induction false} BuildTablePlacement(rows: seq<Row>, fieldMap: map<string, string>, stamped: bool)
    ensures Placed(BuildTable(rows, fieldMap, stamped), rows, fieldMap)
    decreases |rows|
  {
    if |rows| > 0 {
      var n := |rows| - 1;
      var t := BuildTable(rows[..n], fieldMap, stamped);
      var t2 := BuildTable(rows, fieldMap, stamped);
      assert StepOf(t, t2, rows[n], fieldMap, stamped) by {
        AccumulateStep(t, rows[n], fieldMap, stamped);
      }
      BuildTablePlacement(rows[..n], fieldMap, stamped);
      BuildTableShape(rows[..n], fieldMap, stamped);
      PlaceStep(t, t2, rows[..n], rows[n], fieldMap, stamped);
      assert rows[..n] + [rows[n]] == rows;
    }
  }

  /** `Object.values` lists one object per key, in key order. */
  lemma {:induction false} ValuesOfIndex(order: seq<string>, entries: map<string, DeviceEntry>)
    requires forall d :: d in order ==> d in entries
    ensures |ValuesOf(order, entries)| == |order|
    ensures forall i :: 0 <= i < |order| ==> ValuesOf(order, entries)[i] == entries[order[i]]
    decreases |order|
  {
    if |order| > 0 {
      ValuesOfIndex(order[1..], entries);
      assert forall i :: 0 < i < |order| ==> order[1..][i - 1] == order[i];
    }
  }

  /** The i-th formatted object is the one kept for the i-th distinct device. */
  lemma FormattedEntry(rows: seq<Row>, fieldMap: map<string, string>, stamped: bool, i: nat)
    requires i < |Distinct(DevEuis(rows))|
    ensures |Formatted(rows, fieldMap, stamped)| == |Distinct(DevEuis(rows))|
    ensures Distinct(DevEuis(rows))[i] in DevEuis(rows)
    ensures Distinct(DevEuis(rows))[i] in BuildTable(rows, fieldMap, stamped).entries
    ensures Formatted(rows, fieldMap, stamped)[i] ==
      BuildTable(rows, fieldMap, stamped).entries[Distinct(DevEuis(rows))[i]]
  {
    var t := BuildTable(rows, fieldMap, stamped);
    BuildTableShape(rows, fieldMap, stamped);
    DistinctMembers(DevEuis(rows));
    assert Distinct(DevEuis(rows))[i] in Distinct(DevEuis(rows));
    ValuesOfIndex(t.order, t.entries);
  }

  /** The value of the last row of device d with the given field. */
  function LastValue(rows: seq<Row>, d: string, field: string): Option<real> {
    if |rows| == 0 then None
    else
      var last := rows[|rows| - 1];
      if last.devEui == d && last.field == field then Some(last.value)
      else LastValue(rows[..|rows| - 1], d, field)
  }

  /** A later row overwrites: when row i is the last row of device d with that field, the field's
      value is the one row i carries. */
  lemma {:induction false} LastValueAt(rows: seq<Row>, d: string, field: string, i: nat)
    requires i < |rows| && rows[i].devEui == d && rows[i].field == field
    requires forall j :: i < j < |rows| ==> rows[j].devEui != d || rows[j].field != field
    ensures LastValue(rows, d, field) == Some(rows[i].value)
    decreases |rows|
  {
    if i < |rows| - 1 {
      LastValueAt(rows[..|rows| - 1], d, field, i);
    }
  }

  /** A slot that only one field maps to holds that field's latest value. */
  lemma {:induction false} LastInSlotOnlyField(rows: seq<Row>, d: string, fieldMap: map<string, string>, slot: Slot, field: string)
    requires SlotOf(fieldMap, field) == Some(slot)
    requires forall f :: SlotOf(fieldMap, f) == Some(slot) ==> f == field
    ensures LastInSlot(rows, d, fieldMap, slot) == LastValue(rows, d, field)
    decreases |rows|
  {
    if |rows| > 0 {
      LastInSlotOnlyField(rows[..|rows| - 1], d, fieldMap, slot, field);
    }
  }

  /** The table field map places latitude and longitude as `lat` and `lng` under `localisation`,
      snr, rssi and battery at the top level under their own names, and nothing else. */
  lemma TableSlotOf(f: string)
    ensures SlotOf(TABLE_FIELD_MAP, f) ==
      if f == "latitude" then Some(InLocalisation("lat"))
      else if f == "longitude" then Some(InLocalisation("lng"))
      else if f == "snr" || f == "rssi" || f == "battery" then Some(AtTop(f))
      else None
  {
  }

  /** The map field map is the table one without snr and rssi. */
  lemma MapSlotOf(f: string)
    ensures SlotOf(MAP_FIELD_MAP, f) ==
      if f == "latitude" then Some(InLocalisation("lat"))
      else if f == "longitude" then Some(InLocalisation("lng"))
      else if f == "battery" then Some(AtTop("battery"))
      else None
  {
  }

  /** The localisation of an object filled under the table field map. */
  lemma TableLocalisation(rows: seq<Row>, d: string, e: DeviceEntry)
    requires forall k :: Lookup(e.localisation, k) == LastInSlot(rows, d, TABLE_FIELD_MAP, InLocalisation(k))
    ensures Lookup(e.localisation, "lat") == LastValue(rows, d, "latitude")
    ensures Lookup(e.localisation, "lng") == LastValue(rows, d, "longitude")
    ensures e.localisation.Keys <= {"lat", "lng"}
  {
    var fm := TABLE_FIELD_MAP;
    forall f ensures SlotOf(fm, f) == Some(InLocalisation("lat")) ==> f == "latitude" {
      TableSlotOf(f);
    }
    forall f ensures SlotOf(fm, f) == Some(InLocalisation("lng")) ==> f == "longitude" {
      TableSlotOf(f);
    }
    TableSlotOf("latitude");
    TableSlotOf("longitude");
    LastInSlotOnlyField(rows, d, fm, InLocalisation("lat"), "latitude");
    LastInSlotOnlyField(rows, d, fm, InLocalisation("lng"), "longitude");
    forall k | k in e.localisation ensures k in {"lat", "lng"} {
      assert Lookup(e.localisation, k).Some?;
      var j :| 0 <= j < |rows| && FeedsSlot(rows[j], d, fm, InLocalisation(k));
      TableSlotOf(rows[j].field);
    }
  }

  /** The top-level readings of an object filled under the table field map. */
  lemma TableReadings(rows: seq<Row>, d: string, e: DeviceEntry)
    requires forall k :: Lookup(e.readings, k) == LastInSlot(rows, d, TABLE_FIELD_MAP, AtTop(k))
    ensures Lookup(e.readings, "snr") == LastValue(rows, d, "snr")
    ensures Lookup(e.readings, "rssi") == LastValue(rows, d, "rssi")
    ensures Lookup(e.readings, "battery") == LastValue(rows, d, "battery")
    ensures e.readings.Keys <= {"snr", "rssi", "battery"}
  {
    var fm := TABLE_FIELD_MAP;
    forall f, k ensures SlotOf(fm, f) == Some(AtTop(k)) ==> f == k {
      TableSlotOf(f);
    }
    TableSlotOf("snr");
    TableSlotOf("rssi");
    TableSlotOf("battery");
    LastInSlotOnlyField(rows, d, fm, AtTop("snr"), "snr");
    LastInSlotOnlyField(rows, d, fm, AtTop("rssi"), "rssi");
    LastInSlotOnlyField(rows, d, fm, AtTop("battery"), "battery");
    forall k | k in e.readings ensures k in {"snr", "rssi", "battery"} {
      assert Lookup(e.readings, k).Some?;
      var j :| 0 <= j < |rows| && FeedsSlot(rows[j], d, fm, AtTop(k));
      TableSlotOf(rows[j].field);
    }
  }

  /** The localisation of an object filled under the map field map. */
  lemma MapLocalisation(rows: seq<Row>, d: string, e: DeviceEntry)
    requires forall k :: Lookup(e.localisation, k) == LastInSlot(rows, d, MAP_FIELD_MAP, InLocalisation(k))
    ensures Lookup(e.localisation, "lat") == LastValue(rows, d, "latitude")
    ensures Lookup(e.localisation, "lng") == LastValue(rows, d, "longitude")
    ensures e.localisation.Keys <= {"lat", "lng"}
  {
    var fm := MAP_FIELD_MAP;
    forall f ensures SlotOf(fm, f) == Some(InLocalisation("lat")) ==> f == "latitude" {
      MapSlotOf(f);
    }
    forall f ensures SlotOf(fm, f) == Some(InLocalisation("lng")) ==> f == "longitude" {
      MapSlotOf(f);
    }
    MapSlotOf("latitude");
    MapSlotOf("longitude");
    LastInSlotOnlyField(rows, d, fm, InLocalisation("lat"), "latitude");
    LastInSlotOnlyField(rows, d, fm, InLocalisation("lng"), "longitude");
    forall k | k in e.localisation ensures k in {"lat", "lng"} {
      assert Lookup(e.localisation, k).Some?;
      var j :| 0 <= j < |rows| && FeedsSlot(rows[j], d, fm, InLocalisation(k));
      MapSlotOf(rows[j].field);
    }
  }

  /** The top-level readings of an object filled under the map field map: snr and rssi rows are
      ignored, so battery is the only one. */
  lemma MapReadings(rows: seq<Row>, d: string, e: DeviceEntry)
    requires forall k :: Lookup(e.readings, k) == LastInSlot(rows, d, MAP_FIELD_MAP, AtTop(k))
    ensures Lookup(e.readings, "battery") == LastValue(rows, d, "battery")
    ensures e.readings.Keys <= {"battery"}
  {
    var fm := MAP_FIELD_MAP;
    forall f ensures SlotOf(fm, f) == Some(AtTop("battery")) ==> f == "battery" {
      MapSlotOf(f);
    }
    MapSlotOf("battery");
    LastInSlotOnlyField(rows, d, fm, AtTop("battery"), "battery");
    forall k | k in e.readings ensures k in {"battery"} {
      assert Lookup(e.readings, k).Some?;
      var j :| 0 <= j < |rows| && FeedsSlot(rows[j], d, fm, AtTop(k));
      MapSlotOf(rows[j].field);
    }
  }

  /** getTableData: the i-th object belongs to the i-th distinct device, carries the time of the
      device's first row, holds under `localisation` the latest latitude and longitude as `lat` and
      `lng`, at the top level the latest snr, rssi and battery, and nothing else. */
  lemma TableDataEntry(rows: seq<Row>, i: nat)
    requires i < |Distinct(DevEuis(rows))|
    ensures |Formatted(rows, TABLE_FIELD_MAP, true)| == |Distinct(DevEuis(rows))|
    ensures var e := Formatted(rows, TABLE_FIELD_MAP, true)[i];
      && e.device == Distinct(DevEuis(rows))[i]
      && e.device in DevEuis(rows)
      && e.timestamp == Some(rows[FirstIndex(DevEuis(rows), e.device)].time)
      && Lookup(e.localisation, "lat") == LastValue(rows, e.device, "latitude")
      && Lookup(e.localisation, "lng") == LastValue(rows, e.device, "longitude")
      && Lookup(e.readings, "snr") == LastValue(rows, e.device, "snr")
      && Lookup(e.readings, "rssi") == LastValue(rows, e.device, "rssi")
      && Lookup(e.readings, "battery") == LastValue(rows, e.device, "battery")
      && e.localisation.Keys <= {"lat", "lng"}
      && e.readings.Keys <= {"snr", "rssi", "battery"}
  {
    var fm := TABLE_FIELD_MAP;
    var t := BuildTable(rows, fm, true);
    FormattedEntry(rows, fm, true, i);
    var d := Distinct(DevEuis(rows))[i];
    var e := t.entries[d];
    assert e.device == d by {
      BuildTableShape(rows, fm, true);
    }
    assert e.timestamp == Some(rows[FirstIndex(DevEuis(rows), d)].time) by {
      BuildTableTimestamp(rows, fm, true);
      FirstTimeIndex(rows, d);
    }
    assert && (forall k :: Lookup(e.localisation, k) == LastInSlot(rows, d, fm, InLocalisation(k)))
           && (forall k :: Lookup(e.readings, k) == LastInSlot(rows, d, fm, AtTop(k))) by {
      BuildTablePlacement(rows, fm, true);
    }
    TableLocalisation(rows, d, e);
    TableReadings(rows, d, e);
  }

  /** getMapData: the i-th object belongs to the i-th distinct device, has no timestamp, holds under
      `localisation` the latest latitude and longitude, at the top level the latest battery, and
      nothing else. */
  lemma MapDataEntry(rows: seq<Row>, i: nat)
    requires i < |Distinct(DevEuis(rows))|
    ensures |Formatted(rows, MAP_FIELD_MAP, false)| == |Distinct(DevEuis(rows))|
    ensures var e := Formatted(rows, MAP_FIELD_MAP, false)[i];
      && e.device == Distinct(DevEuis(rows))[i]
      && e.timestamp == None
      && Lookup(e.localisation, "lat") == LastValue(rows, e.device, "latitude")
      && Lookup(e.localisation, "lng") == LastValue(rows, e.device, "longitude")
      && Lookup(e.readings, "battery") == LastValue(rows, e.device, "battery")
      && e.localisation.Keys <= {"lat", "lng"}
      && e.readings.Keys <= {"battery"}
  {
    var fm := MAP_FIELD_MAP;
    var t := BuildTable(rows, fm, false);
    FormattedEntry(rows, fm, false, i);
    var d := Distinct(DevEuis(rows))[i];
    var e := t.entries[d];
    assert e.device == d by {
      BuildTableShape(rows, fm, false);
    }
    assert e.timestamp == None by {
      BuildTableTimestamp(rows, fm, false);
    }
    assert && (forall k :: Lookup(e.localisation, k) == LastInSlot(rows, d, fm, InLocalisation(k)))
           && (forall k :: Lookup(e.readings, k) == LastInSlot(rows, d, fm, AtTop(k))) by {
      BuildTablePlacement(rows, fm, false);
    }
    MapLocalisation(rows, d, e);
    MapReadings(rows, d, e);
  }

  /** A field that no row of device d carries has no latest value. */
  lemma {:induction false} LastValueAbsent(rows: seq<Row>, d: string, field: string)
    requires forall j :: 0 <= j < |rows| && rows[j].devEui == d ==> rows[j].field != field
    ensures LastValue(rows, d, field) == None
    decreases |rows|
  {
    if |rows| > 0 {
      LastValueAbsent(rows[..|rows| - 1], d, field);
    }
  }

  /** getTableData: a device whose rows all carry unmapped fields still gets its object, with an
      empty `localisation` and no readings. */
  lemma TableUnmappedDevice(rows: seq<Row>, i: nat)
    requires i < |Distinct(DevEuis(rows))|
    requires forall j :: 0 <= j < |rows| && rows[j].devEui == Distinct(DevEuis(rows))[i] ==>
      rows[j].field !in TABLE_FIELD_MAP
    ensures |Formatted(rows, TABLE_FIELD_MAP, true)| == |Distinct(DevEuis(rows))|
    ensures Formatted(rows, TABLE_FIELD_MAP, true)[i].device == Distinct(DevEuis(rows))[i]
    ensures Formatted(rows, TABLE_FIELD_MAP, true)[i].localisation == map[]
    ensures Formatted(rows, TABLE_FIELD_MAP, true)[i].readings == map[]
  {
    TableDataEntry(rows, i);
    var e := Formatted(rows, TABLE_FIELD_MAP, true)[i];
    var d := e.device;
    LastValueAbsent(rows, d, "latitude");
    LastValueAbsent(rows, d, "longitude");
    LastValueAbsent(rows, d, "snr");
    LastValueAbsent(rows, d, "rssi");
    LastValueAbsent(rows, d, "battery");
    assert e.localisation.Keys == {};
    assert e.readings.Keys == {};
  }

  // ---------------------------------------------------------------------------------------------
  // getTrackingData: one point per distinct `_time`

  /** A track point: its time, the `localisation` object and the battery (`null` until a battery
      row is seen). */
  datatype TrackPoint = TrackPoint(timestamp: string, localisation: map<string, real>, battery: Option<real>)

  /** `locationData.find(entry => entry.timestamp === time)`: the index of the first point with that
      time. */
  function FindByTimestamp(points: seq<TrackPoint>, time: string): (r: Option<nat>)
    ensures r.Some? ==> r.value < |points| && points[r.value].timestamp == time
    ensures r.Some? ==> forall k :: 0 <= k < r.value ==> points[k].timestamp != time
    ensures r.None? ==> forall k :: 0 <= k < |points| ==> points[k].timestamp != time
  {
    if |points| == 0 then None
    else if points[0].timestamp == time then Some(0)
    else match FindByTimestamp(points[1..], time)
      case None => None
      case Some(k) => Some(k + 1)
  }

  /** The `switch (_field)` of one step. */
  function Fill(p: TrackPoint, r: Row): TrackPoint {
    if r.field == "latitude" then p.(localisation := p.localisation["lat" := r.value])
    else if r.field == "longitude" then p.(localisation := p.localisation["lng" := r.value])
    else if r.field == "battery" then p.(battery := Some(r.value))
    else p
  }

  /** One `forEach` step: find the point with the row's time or push a fresh one, then fill it. */
  function AddToTrack(points: seq<TrackPoint>, r: Row): seq<TrackPoint> {
    match FindByTimestamp(points, r.time)
    case Some(k) => points[k := Fill(points[k], r)]
    case None => points + [Fill(TrackPoint(r.time, map[], None), r)]
  }

  function Track(rows: seq<Row>): seq<TrackPoint> {
    if |rows| == 0 then []
    else AddToTrack(Track(rows[..|rows| - 1]), rows[|rows| - 1])
  }

  /** getTrackingData's `complete()`. */
  method GetTrackingData(rows: seq<Row>) returns (locationData: seq<TrackPoint>)
    ensures locationData == Track(rows)
  {
    locationData := [];
    var i := 0;
    while i < |rows|
      invariant i <= |rows|
      invariant locationData == Track(rows[..i])
    {
      var r := rows[i];
      var found := FindByTimestamp(locationData, r.time);
      // The fresh entry is pushed before the switch fills it, but the array holds the same object,
      // so pushing the filled value is the same.
      var entry := if found.Some? then locationData[found.value] else TrackPoint(r.time, map[], None);
      if r.field == "latitude" {
        entry := entry.(localisation := entry.localisation["lat" := r.value]);
      } else if r.field == "longitude" {
        entry := entry.(localisation := entry.localisation["lng" := r.value]);
      } else if r.field == "battery" {
        entry := entry.(battery := Some(r.value));
      }
      if found.Some? {
        locationData := locationData[found.value := entry];
      } else {
        locationData := locationData + [entry];
      }
      assert rows[..i + 1][..i] == rows[..i];
      i := i + 1;
    }
    assert rows[..i] == rows;
  }

  /** The `_time` column of the rows, and the times of the points, in order. */
  function Times(rows: seq<Row>): (r: seq<string>)
    ensures |r| == |rows|
  {
    seq(|rows|, i requires 0 <= i < |rows| => rows[i].time)
  }

  lemma TimesSnoc(rows: seq<Row>)
    requires |rows| > 0
    ensures Times(rows) == Times(rows[..|rows| - 1]) + [rows[|rows| - 1].time]
  {
  }

  function Timestamps(points: seq<TrackPoint>): (r: seq<string>)
    ensures |r| == |points|
  {
    seq(|points|, i requires 0 <= i < |points| => points[i].timestamp)
  }

  /** One step keeps the times of the points and adds the row's time when it is new. */
  lemma AddTimestamps(points: seq<TrackPoint>, r: Row)
    ensures Timestamps(AddToTrack(points, r)) ==
      if r.time in Timestamps(points) then Timestamps(points) else Timestamps(points) + [r.time]
  {
    var next := AddToTrack(points, r);
    match FindByTimestamp(points, r.time)
    case Some(k) =>
      assert Timestamps(points)[k] == r.time;
      assert Timestamps(next) == Timestamps(points);
    case None =>
      assert r.time !in Timestamps(points);
      assert Timestamps(next) == Timestamps(points) + [r.time];
  }

  /** The points are the distinct times of the rows, in first-seen order. */
  lemma {:induction false} TrackTimestamps(rows: seq<Row>)
    ensures Timestamps(Track(rows)) == Distinct(Times(rows))
    decreases |rows|
  {
    if |rows| > 0 {
      var n := |rows| - 1;
      TrackTimestamps(rows[..n]);
      AddTimestamps(Track(rows[..n]), rows[n]);
      TimesSnoc(rows);
      DistinctStep(Times(rows[..n]), rows[n].time);
    }
  }

  /** The value of the last row at that time with the given field. */
  function LastForTime(rows: seq<Row>, time: string, field: string): (r: Option<real>)
    ensures r.Some? ==> exists i :: 0 <= i < |rows| && rows[i].time == time && rows[i].field == field
  {
    if |rows| == 0 then None
    else
      var last := rows[|rows| - 1];
      if last.time == time && last.field == field then Some(last.value)
      else LastForTime(rows[..|rows| - 1], time, field)
  }

  /** A later row overwrites: when row i is the last row at that time with that field, the value
      at that time is the one row i carries. */
  lemma {:induction false} LastForTimeAt(rows: seq<Row>, time: string, field: string, i: nat)
    requires i < |rows| && rows[i].time == time && rows[i].field == field
    requires forall j :: i < j < |rows| ==> rows[j].time != time || rows[j].field != field
    ensures LastForTime(rows, time, field) == Some(rows[i].value)
    decreases |rows|
  {
    if i < |rows| - 1 {
      LastForTimeAt(rows[..|rows| - 1], time, field, i);
    }
  }

  /** Point p holds the latest latitude, longitude and battery of the rows at its time, and no other
      localisation key. */
  predicate PointTracks(p: TrackPoint, rows: seq<Row>) {
    && Lookup(p.localisation, "lat") == LastForTime(rows, p.timestamp, "latitude")
    && Lookup(p.localisation, "lng") == LastForTime(rows, p.timestamp, "longitude")
    && p.battery == LastForTime(rows, p.timestamp, "battery")
    && p.localisation.Keys <= {"lat", "lng"}
  }

  lemma LastForTimeSnoc(rows: seq<Row>, r: Row, time: string, field: string)
    ensures LastForTime(rows + [r], time, field) ==
      if r.time == time && r.field == field then Some(r.value) else LastForTime(rows, time, field)
  {
    assert (rows + [r])[..|rows|] == rows;
  }

  /** A row at another time leaves a point as it was. */
  lemma KeepTracks(p: TrackPoint, rows: seq<Row>, r: Row)
    requires PointTracks(p, rows) && p.timestamp != r.time
    ensures PointTracks(p, rows + [r])
  {
    LastForTimeSnoc(rows, r, p.timestamp, "latitude");
    LastForTimeSnoc(rows, r, p.timestamp, "longitude");
    LastForTimeSnoc(rows, r, p.timestamp, "battery");
  }

  /** A row at the point's time lands in it. */
  lemma FillTracks(p: TrackPoint, rows: seq<Row>, r: Row)
    requires PointTracks(p, rows) && p.timestamp == r.time
    ensures PointTracks(Fill(p, r), rows + [r])
  {
    LastForTimeSnoc(rows, r, p.timestamp, "latitude");
    LastForTimeSnoc(rows, r, p.timestamp, "longitude");
    LastForTimeSnoc(rows, r, p.timestamp, "battery");
  }

  /** A time no row has has no value. */
  lemma LastForTimeUnseen(rows: seq<Row>, time: string, field: string)
    requires time !in Times(rows)
    ensures LastForTime(rows, time, field) == None
  {
    forall i | 0 <= i < |rows| ensures rows[i].time != time {
      assert Times(rows)[i] == rows[i].time;
    }
  }

  ghost predicate Tracked(points: seq<TrackPoint>, rows: seq<Row>) {
    forall i :: 0 <= i < |points| ==> PointTracks(points[i], rows)
  }

  lemma TrackStep(points: seq<TrackPoint>, rows: seq<Row>, r: Row)
    requires Tracked(points, rows) && Timestamps(points) == Distinct(Times(rows))
    ensures Tracked(AddToTrack(points, r), rows + [r])
  {
    var next := AddToTrack(points, r);
    DistinctNoDuplicates(Times(rows));
    DistinctMembers(Times(rows));
    match FindByTimestamp(points, r.time)
    case Some(k) =>
      forall i | 0 <= i < |next| ensures PointTracks(next[i], rows + [r]) {
        if i == k {
          FillTracks(points[k], rows, r);
        } else {
          assert Timestamps(points)[i] != Timestamps(points)[k];
          KeepTracks(points[i], rows, r);
        }
      }
    case None =>
      forall i | 0 <= i < |next| ensures PointTracks(next[i], rows + [r]) {
        if i < |points| {
          KeepTracks(points[i], rows, r);
        } else {
          assert r.time !in Timestamps(points) by {
            forall j | 0 <= j < |points| ensures Timestamps(points)[j] != r.time {
            }
          }
          LastForTimeUnseen(rows, r.time, "latitude");
          LastForTimeUnseen(rows, r.time, "longitude");
          LastForTimeUnseen(rows, r.time, "battery");
          FillTracks(TrackPoint(r.time, map[], None), rows, r);
        }
      }
  }

  /** Each track point holds the latest latitude (`lat`), longitude (`lng`) and battery of the rows
      at its time; a value no row gave is absent, and the battery then `null`. */
  lemma {:induction false} TrackValues(rows: seq<Row>)
    ensures Tracked(Track(rows), rows)
    decreases |rows|
  {
    if |rows| > 0 {
      var n := |rows| - 1;
      TrackValues(rows[..n]);
      TrackTimestamps(rows[..n]);
      TrackStep(Track(rows[..n]), rows[..n], rows[n]);
      assert rows[..n] + [rows[n]] == rows;
    }
  }
}
