/** The intermediate store: the JSON tree the converter writes,
    `{"sensors":[{"id","name","data":[{"time","v1","v2"}]}]}`, and the loader
    that rebuilds the sensor list from it. */
module Store {
  import opened Wrappers
  import opened Ints
  import opened Sensors
  import opened JsonTree

  // ---------------------------------------------------------------------
  // Writing

  function EncodePoint(p: DataPoint): Json {
    JObject(map["time" := JNumber(p.time), "v1" := JNumber(p.v1), "v2" := JNumber(p.v2)])
  }

  function EncodePoints(ps: seq<DataPoint>): (r: seq<Json>)
    ensures |r| == |ps|
    decreases |ps|
  {
    if |ps| == 0 then [] else [EncodePoint(ps[0])] + EncodePoints(ps[1..])
  }

  function EncodeSensor(s: Sensor): Json {
    JObject(map[
      "id" := JNumber(s.id as real),
      "name" := JString(s.name),
      "data" := JArray(EncodePoints(s.data))])
  }

  function EncodeSensors(ss: seq<Sensor>): (r: seq<Json>)
    ensures |r| == |ss|
    decreases |ss|
  {
    if |ss| == 0 then [] else [EncodeSensor(ss[0])] + EncodeSensors(ss[1..])
  }

  /** The document root the converter writes. */
  function EncodeStore(ss: seq<Sensor>): Json {
    JObject(map["sensors" := JArray(EncodeSensors(ss))])
  }

  // ---------------------------------------------------------------------
  // Reading

  /** A stored sample: `time`, `v1` and `v2`, each 0.0 when missing or not
      a number. The corrected fields are never assigned. */
  function DecodePoint(v: Json): DataPoint {
    var o := ToObject(v);
    DataPoint(ToDouble(Field(o, "time")), ToDouble(Field(o, "v1")), ToDouble(Field(o, "v2")), None, None)
  }

  function DecodePoints(vs: seq<Json>): (r: seq<DataPoint>)
    ensures |r| == |vs|
    decreases |vs|
  {
    if |vs| == 0 then [] else [DecodePoint(vs[0])] + DecodePoints(vs[1..])
  }

  /** A stored sensor: `id` (0 when missing), `name` ("" when missing),
      `data` (no samples when missing), and the default coefficients. */
  function DecodeSensor(v: Json): Sensor {
    var o := ToObject(v);
    Sensor(ToInt(Field(o, "id")), ToStr(Field(o, "name")), DecodePoints(ToArray(Field(o, "data"))), 1.0, 1.0)
  }

  function DecodeSensors(vs: seq<Json>): (r: seq<Sensor>)
    ensures |r| == |vs|
    ensures forall i :: 0 <= i < |vs| ==> r[i] == DecodeSensor(vs[i])
    decreases |vs|
  {
    if |vs| == 0 then [] else [DecodeSensor(vs[0])] + DecodeSensors(vs[1..])
  }

  /** The sensors of a document root object, one per element of its
      `sensors` array (none when `sensors` is missing or not an array). */
  function DecodeStore(root: map<string, Json>): seq<Sensor> {
    DecodeSensors(ToArray(Field(root, "sensors")))
  }

  // ---------------------------------------------------------------------
  // What the store keeps

  /** A sample as it survives a trip through the store: time and raw values;
      the corrected fields come back unassigned. */
  function StoredPoint(p: DataPoint): DataPoint {
    DataPoint(p.time, p.v1, p.v2, None, None)
  }

  function StoredPoints(ps: seq<DataPoint>): (r: seq<DataPoint>)
    ensures |r| == |ps|
    decreases |ps|
  {
    if |ps| == 0 then [] else [StoredPoint(ps[0])] + StoredPoints(ps[1..])
  }

  /** A sensor as it survives a trip through the store: id, name and stored
      samples; the coefficients come back as the defaults. */
  function StoredSensor(s: Sensor): Sensor {
    Sensor(s.id, s.name, StoredPoints(s.data), 1.0, 1.0)
  }

  function StoredSensors(ss: seq<Sensor>): (r: seq<Sensor>)
    ensures |r| == |ss|
    decreases |ss|
  {
    if |ss| == 0 then [] else [StoredSensor(ss[0])] + StoredSensors(ss[1..])
  }

  /** Writing then reading a series keeps every sample's time and raw values,
      in order. */
  lemma {:induction false} PointsRoundTrip(ps: seq<DataPoint>)
    ensures DecodePoints(EncodePoints(ps)) == StoredPoints(ps)
    decreases |ps|
  {
    if |ps| > 0 {
      PointsRoundTrip(ps[1..]);
      var e := EncodePoints(ps);
      assert e[0] == EncodePoint(ps[0]) && e[1..] == EncodePoints(ps[1..]);
    }
  }

  /** The store round trip: reading back what was written gives the same
      sensors, in the same order, with the same ids, names and samples. */
  lemma {:induction false} StoreRoundTrip(ss: seq<Sensor>)
    ensures DecodeStore(EncodeStore(ss).fields) == StoredSensors(ss)
  {
    SensorsRoundTrip(ss);
  }

  lemma {:induction false} SensorsRoundTrip(ss: seq<Sensor>)
    ensures DecodeSensors(EncodeSensors(ss)) == StoredSensors(ss)
    decreases |ss|
  {
    if |ss| > 0 {
      SensorsRoundTrip(ss[1..]);
      PointsRoundTrip(ss[0].data);
      IntRoundTrip(ss[0].id);
      var e := EncodeSensors(ss);
      assert e[0] == EncodeSensor(ss[0]) && e[1..] == EncodeSensors(ss[1..]);
    }
  }

  lemma {:induction false} DecodedPointsAreStored(vs: seq<Json>)
    ensures StoredPoints(DecodePoints(vs)) == DecodePoints(vs)
    decreases |vs|
  {
    if |vs| > 0 {
      DecodedPointsAreStored(vs[1..]);
      var d := DecodePoints(vs);
      assert d[1..] == DecodePoints(vs[1..]);
    }
  }

  lemma {:induction false} DecodedSensorsAreStored(vs: seq<Json>)
    ensures StoredSensors(DecodeSensors(vs)) == DecodeSensors(vs)
    decreases |vs|
  {
    if |vs| > 0 {
      DecodedSensorsAreStored(vs[1..]);
      DecodedPointsAreStored(ToArray(Field(ToObject(vs[0]), "data")));
      var d := DecodeSensors(vs);
      assert d[1..] == DecodeSensors(vs[1..]);
    }
  }

  /** Saving what was loaded and loading it again changes nothing: whatever
      the tolerant reader made of a document is a fixed point of the store. */
  lemma {:induction false} ReloadStable(root: map<string, Json>)
    ensures DecodeStore(EncodeStore(DecodeStore(root)).fields) == DecodeStore(root)
  {
    StoreRoundTrip(DecodeStore(root));
    DecodedSensorsAreStored(ToArray(Field(root, "sensors")));
  }

  /** Missing or mistyped fields take their defaults instead of failing. */
  lemma {:induction false} MissingFieldsDefault(o: map<string, Json>)
    ensures "id" !in o ==> DecodeSensor(JObject(o)).id == 0
    ensures "name" !in o ==> DecodeSensor(JObject(o)).name == ""
    ensures "data" !in o ==> DecodeSensor(JObject(o)).data == []
    ensures "time" !in o ==> DecodePoint(JObject(o)).time == 0.0
    ensures "v1" !in o ==> DecodePoint(JObject(o)).v1 == 0.0
    ensures "v2" !in o ==> DecodePoint(JObject(o)).v2 == 0.0
    ensures "id" in o && !o["id"].JNumber? ==> DecodeSensor(JObject(o)).id == 0
    ensures "name" in o && !o["name"].JString? ==> DecodeSensor(JObject(o)).name == ""
    ensures "data" in o && !o["data"].JArray? ==> DecodeSensor(JObject(o)).data == []
    ensures "time" in o && !o["time"].JNumber? ==> DecodePoint(JObject(o)).time == 0.0
    ensures "v1" in o && !o["v1"].JNumber? ==> DecodePoint(JObject(o)).v1 == 0.0
    ensures "v2" in o && !o["v2"].JNumber? ==> DecodePoint(JObject(o)).v2 == 0.0
  {
  }

  /** An element of the `sensors` array that is not an object reads as a
      sensor with every field at its default, and likewise for a sample. */
  lemma {:induction false} NonObjectDefaults(v: Json)
    requires !v.JObject?
    ensures DecodeSensor(v) == Sensor(0, "", [], 1.0, 1.0)
    ensures DecodePoint(v) == DataPoint(0.0, 0.0, 0.0, None, None)
  {
  }

  // ---------------------------------------------------------------------
  // Loading into the model

  /** What reading the store file produced: the file could not be opened,
      its text is not JSON, or the parsed document. */
  datatype StoreRead = CannotOpen | Unparseable | Parsed(doc: Json)

  /** A sensor the loader built: default coefficients, corrections unset. */
  predicate Uncalibrated(s: Sensor) {
    && s.kA == 1.0
    && s.kB == 1.0
    && forall p :: p in s.data ==> p.v1Corr.None? && p.v2Corr.None?
  }

  /** `loadFromJsonFile`. When the file cannot be read, is not JSON, or its
      root is not an object, the model is left exactly as it was. Otherwise
      the sensor list is replaced wholesale, one sensor per element of the
      `sensors` array, and nothing else in the model changes. Sensor `i`
      is read from element `i` by the tolerant field reader. */
  function Load(m: SensorModel, input: StoreRead): (r: SensorModel)
    ensures r.(sensors := m.sensors) == m
    ensures !(input.Parsed? && input.doc.JObject?) ==> r == m
    ensures input.Parsed? && input.doc.JObject? ==>
      |r.sensors| == |ToArray(Field(input.doc.fields, "sensors"))|
    ensures input.Parsed? && input.doc.JObject? ==>
      forall i :: 0 <= i < |r.sensors| ==>
        r.sensors[i] == DecodeSensor(ToArray(Field(input.doc.fields, "sensors"))[i])
    ensures input.Parsed? && input.doc.JObject? ==>
      forall s :: s in r.sensors ==> Uncalibrated(s)
  {
    match input
    case Parsed(JObject(root)) =>
      var ss := DecodeStore(root);
      DecodedAreUncalibrated(ToArray(Field(root, "sensors")));
      m.(sensors := ss)
    case _ => m
  }

  lemma {:induction false} DecodedAreUncalibrated(vs: seq<Json>)
    ensures forall s :: s in DecodeSensors(vs) ==> Uncalibrated(s)
    decreases |vs|
  {
    if |vs| > 0 {
      DecodedAreUncalibrated(vs[1..]);
      DecodedPointsAreStored(ToArray(Field(ToObject(vs[0]), "data")));
      StoredPointsUnset(DecodePoints(ToArray(Field(ToObject(vs[0]), "data"))));
    }
  }

  lemma {:induction false} StoredPointsUnset(ps: seq<DataPoint>)
    ensures forall p :: p in StoredPoints(ps) ==> p.v1Corr.None? && p.v2Corr.None?
    decreases |ps|
  {
    if |ps| > 0 {
      StoredPointsUnset(ps[1..]);
    }
  }

  /** The loader never touches the plot bounds or the global reference, so
      after loading into a fresh model they keep their initial values. */
  lemma {:induction false} LoadKeepsInitialBounds(input: StoreRead)
    ensures var r := Load(InitialModel, input);
      && r.minTime == 0.0 && r.maxTime == 10.0
      && r.minValue == 0.0 && r.maxValue == 100.0
      && r.globalReference == 0.0
  {
  }

  /** A root object whose `sensors` member is missing or not an array empties
      the model rather than failing. */
  lemma {:induction false} NonArraySensorsClears(m: SensorModel, root: map<string, Json>)
    requires !("sensors" in root && root["sensors"].JArray?)
    ensures Load(m, Parsed(JObject(root))).sensors == []
  {
  }
}
