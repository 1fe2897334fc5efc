/** `convertTxtToJson`: the whole ingestion pass from the lines of a text
    log to the store document, and its composition with the loader. */
module Convert {
  import opened Wrappers
  import opened Ints
  import opened Text
  import opened Sensors
  import opened OrderedMap
  import opened JsonTree
  import opened Header
  import opened Rows
  import opened Series
  import opened Store

  /** The column mapping of the header line at index `h`. */
  function HeaderMap(lines: seq<string>, h: nat): map<nat, Column>
    requires h < |lines|
  {
    ColumnMap(SplitWs(lines[h]))
  }

  /** Sensor ids strictly ascend along the list (so none repeats). */
  predicate StrictlyAscendingIds(ss: seq<Sensor>) {
    forall i, j :: 0 <= i < j < |ss| ==> ss[i].id < ss[j].id
  }

  /** Every gathered sensor is stored under its own id and is the sensor the
      reference definition builds for that id. */
  lemma {:induction false} GatheredAreBuilt(lines: seq<string>, cmap: map<nat, Column>, parse: Parser)
    ensures forall i :: 0 <= i < |Accumulate(lines, cmap, parse)| ==>
      var e := Accumulate(lines, cmap, parse)[i];
      SeriesOf(lines, cmap, parse, e.0) != [] && e.1 == BuiltSensor(e.0, SeriesOf(lines, cmap, parse, e.0))
  {
    var acc := Accumulate(lines, cmap, parse);
    forall i | 0 <= i < |acc|
      ensures SeriesOf(lines, cmap, parse, acc[i].0) != []
      ensures acc[i].1 == BuiltSensor(acc[i].0, SeriesOf(lines, cmap, parse, acc[i].0))
    {
      GetAt(acc, i);
      AccumulateSpec(lines, cmap, parse, acc[i].0);
    }
  }

  /** The gathered sensors, listed in key order, have strictly ascending
      ids, the converter's name and identity coefficients. */
  lemma {:induction false} GatheredValues(lines: seq<string>, cmap: map<nat, Column>, parse: Parser)
    ensures var ss := Values(Accumulate(lines, cmap, parse));
      && StrictlyAscendingIds(ss)
      && forall s :: s in ss ==> s.kA == 1.0 && s.kB == 1.0 && s.name == SensorName(s.id)
  {
    var acc := Accumulate(lines, cmap, parse);
    var ss := Values(acc);
    GatheredAreBuilt(lines, cmap, parse);
    assert forall i :: 0 <= i < |ss| ==> ss[i].id == acc[i].0;
  }

  /** Each sensor of `ss` is `Sensor <id>`, built from the non-empty series
      the lines give its id. */
  ghost predicate BuiltFromSeries(ss: seq<Sensor>, lines: seq<string>, cmap: map<nat, Column>, parse: Parser) {
    forall i :: 0 <= i < |ss| ==>
      && SeriesOf(lines, cmap, parse, ss[i].id) != []
      && ss[i] == BuiltSensor(ss[i].id, SeriesOf(lines, cmap, parse, ss[i].id))
  }

  /** The gathered sensors, listed in key order, are each built from their
      non-empty series. */
  lemma {:induction false} GatheredBuilt(lines: seq<string>, cmap: map<nat, Column>, parse: Parser)
    ensures BuiltFromSeries(Values(Accumulate(lines, cmap, parse)), lines, cmap, parse)
  {
    var acc := Accumulate(lines, cmap, parse);
    var ss := Values(acc);
    GatheredAreBuilt(lines, cmap, parse);
    assert forall i :: 0 <= i < |ss| ==> ss[i] == acc[i].1;
  }

  /** A sensor with a non-empty series is among the gathered sensors. */
  lemma {:induction false} GatheredHas(lines: seq<string>, cmap: map<nat, Column>, parse: Parser, id: Int32)
    requires SeriesOf(lines, cmap, parse, id) != []
    ensures exists i :: 0 <= i < |Values(Accumulate(lines, cmap, parse))|
                        && Values(Accumulate(lines, cmap, parse))[i].id == id
  {
    var acc := Accumulate(lines, cmap, parse);
    var ss := Values(acc);
    AccumulateSpec(lines, cmap, parse, id);
    var g := Get(acc, id);
    assert g.Some?;
    var i :| 0 <= i < |acc| && acc[i] == (id, g.value);
    assert ss[i] == g.value;
  }

  /** The sensors of one conversion: `None` when no line is a header line;
      otherwise the sensors gathered from the lines after the header, in
      strictly ascending id order. */
  function ConvertSensors(lines: seq<string>, parse: Parser): (r: Option<seq<Sensor>>)
    ensures r.None? <==> forall j :: 0 <= j < |lines| ==> !IsHeaderLine(lines[j])
    ensures r.Some? ==> StrictlyAscendingIds(r.value)
    ensures r.Some? ==> forall s :: s in r.value ==> s.kA == 1.0 && s.kB == 1.0 && s.name == SensorName(s.id)
  {
    match FindHeader(lines)
    case None => None
    case Some(h) =>
      var acc := Accumulate(lines[h + 1..], HeaderMap(lines, h), parse);
      GatheredValues(lines[h + 1..], HeaderMap(lines, h), parse);
      Some(Values(acc))
  }

  /** `convertTxtToJson`: the document written to the store file, or `None`
      when the function returns false (the input cannot be opened, no header
      line is found, or the output cannot be opened), in which case nothing
      is written. */
  function ConvertTxtToJson(input: Option<seq<string>>, parse: Parser, outputWritable: bool): (r: Option<Json>)
    ensures r.Some? <==>
      && input.Some?
      && outputWritable
      && exists j :: 0 <= j < |input.value| && IsHeaderLine(input.value[j])
    ensures r.Some? ==> r.value.JObject? && "sensors" in r.value.fields
  {
    match input
    case None => None
    case Some(lines) =>
      match ConvertSensors(lines, parse)
      case None => None
      case Some(ss) => if outputWritable then Some(EncodeStore(ss)) else None
  }

  /** What the conversion produces, sensor by sensor. With `rest` the lines
      after the header and `cmap` the header's column mapping: every output
      sensor is `Sensor <id>` holding exactly the samples that the lines of
      `rest` give that id, in line order. */
  lemma {:induction false} ConvertSensorsSpec(lines: seq<string>, parse: Parser)
    requires HasHeaderLine(lines)
    ensures
      var h := FindHeader(lines).value;
      BuiltFromSeries(ConvertSensors(lines, parse).value, lines[h + 1..], HeaderMap(lines, h), parse)
  {
    var h := FindHeader(lines).value;
    var rest := lines[h + 1..];
    var cmap := HeaderMap(lines, h);
    assert ConvertSensors(lines, parse).value == Values(Accumulate(rest, cmap, parse));
    GatheredBuilt(rest, cmap, parse);
  }

  /** No sensor goes missing: every id that some line after the header
      gives a sample appears in the output. */
  lemma {:induction false} ConvertSensorsComplete(lines: seq<string>, parse: Parser, id: Int32)
    requires HasHeaderLine(lines)
    ensures var h := FindHeader(lines).value;
            var ss := ConvertSensors(lines, parse).value;
            SeriesOf(lines[h + 1..], HeaderMap(lines, h), parse, id) != [] ==>
              exists i :: 0 <= i < |ss| && ss[i].id == id
  {
    var h := FindHeader(lines).value;
    var rest := lines[h + 1..];
    var cmap := HeaderMap(lines, h);
    assert ConvertSensors(lines, parse).value == Values(Accumulate(rest, cmap, parse));
    if SeriesOf(rest, cmap, parse, id) != [] {
      GatheredHas(rest, cmap, parse, id);
    }
  }

  /** Some mapped column at an index of 1 or more carries sensor `id`. */
  predicate HasColumnOf(cmap: map<nat, Column>, id: Int32) {
    exists j: nat :: 1 <= j && j in cmap && cmap[j].sensorId == id
  }

  /** A line that gives sensor `id` a sample has a mapped column of `id` at
      an index of 1 or more. */
  lemma {:induction false} SeriesComesFromColumns(lines: seq<string>, cmap: map<nat, Column>, parse: Parser, id: Int32)
    requires SeriesOf(lines, cmap, parse, id) != []
    ensures HasColumnOf(cmap, id)
    decreases |lines|
  {
    var last := lines[|lines| - 1];
    match LinePoint(last, cmap, parse, id)
    case Some(p) =>
      var row := DecodeRow(last, parse).value;
      assert id in RowIds(cmap, |row.cells|);
    case None =>
      assert SeriesOf(lines, cmap, parse, id) == SeriesOf(lines[..|lines| - 1], cmap, parse, id) + [];
      SeriesComesFromColumns(lines[..|lines| - 1], cmap, parse, id);
  }

  /** Every sensor in the output is named by a mapped header column at an
      index of 1 or more: the converter never invents a sensor, and a
      pattern in header column 0 (the time column of the data lines) never
      creates one. */
  lemma {:induction false} SensorsComeFromHeader(lines: seq<string>, parse: Parser)
    requires HasHeaderLine(lines)
    ensures
      var ss := ConvertSensors(lines, parse).value;
      var cmap := HeaderMap(lines, FindHeader(lines).value);
      forall i :: 0 <= i < |ss| ==> HasColumnOf(cmap, ss[i].id)
  {
    var ss := ConvertSensors(lines, parse).value;
    var h := FindHeader(lines).value;
    var rest := lines[h + 1..];
    var cmap := HeaderMap(lines, h);
    ConvertSensorsSpec(lines, parse);
    assert BuiltFromSeries(ss, rest, cmap, parse);
    forall i | 0 <= i < |ss| ensures HasColumnOf(cmap, ss[i].id) {
      SeriesComesFromColumns(rest, cmap, parse, ss[i].id);
    }
  }

  /** The write/read round trip of the program's start-up: loading the
      document a successful conversion wrote gives the converted sensors in
      the same order, each with the same id, name and number of samples, and
      each sample with the same time and raw values. */
  lemma {:induction false} ConvertThenLoad(lines: seq<string>, parse: Parser, m: SensorModel)
    requires HasHeaderLine(lines)
    ensures
      var ss := ConvertSensors(lines, parse).value;
      var loaded := Load(m, Parsed(ConvertTxtToJson(Some(lines), parse, true).value)).sensors;
      && loaded == StoredSensors(ss)
      && |loaded| == |ss|
      && forall i :: 0 <= i < |ss| ==>
           && loaded[i].id == ss[i].id
           && loaded[i].name == ss[i].name
           && |loaded[i].data| == |ss[i].data|
           && forall j :: 0 <= j < |ss[i].data| ==>
                && loaded[i].data[j].time == ss[i].data[j].time
                && loaded[i].data[j].v1 == ss[i].data[j].v1
                && loaded[i].data[j].v2 == ss[i].data[j].v2
  {
    var ss := ConvertSensors(lines, parse).value;
    LoadConverted(lines, parse, m);
    StoredSensorsFields(ss);
  }

  /** Loading the written document gives the stored form of the converted
      sensors. */
  lemma {:induction false} LoadConverted(lines: seq<string>, parse: Parser, m: SensorModel)
    requires HasHeaderLine(lines)
    ensures Load(m, Parsed(ConvertTxtToJson(Some(lines), parse, true).value)).sensors
            == StoredSensors(ConvertSensors(lines, parse).value)
  {
    var r := ConvertSensors(lines, parse);
    assert r.Some?;
    var ss := r.value;
    var doc := EncodeStore(ss);
    assert ConvertTxtToJson(Some(lines), parse, true) == Some(doc);
    assert Load(m, Parsed(doc)).sensors == DecodeStore(doc.fields);
    StoreRoundTrip(ss);
  }

  lemma {:induction false} StoredSensorsFields(ss: seq<Sensor>)
    ensures forall i :: 0 <= i < |ss| ==>
      && StoredSensors(ss)[i].id == ss[i].id
      && StoredSensors(ss)[i].name == ss[i].name
      && StoredSensors(ss)[i].data == StoredPoints(ss[i].data)
    ensures forall i, j :: 0 <= i < |ss| && 0 <= j < |ss[i].data| ==>
      && StoredPoints(ss[i].data)[j].time == ss[i].data[j].time
      && StoredPoints(ss[i].data)[j].v1 == ss[i].data[j].v1
      && StoredPoints(ss[i].data)[j].v2 == ss[i].data[j].v2
    decreases |ss|
  {
    if |ss| > 0 {
      StoredSensorsFields(ss[1..]);
      forall i | 0 <= i < |ss| ensures StoredPointsAt(ss[i].data) {
        StoredPointsFields(ss[i].data);
      }
    }
  }

  predicate StoredPointsAt(ps: seq<DataPoint>) {
    forall j :: 0 <= j < |ps| ==>
      StoredPoints(ps)[j].time == ps[j].time && StoredPoints(ps)[j].v1 == ps[j].v1 && StoredPoints(ps)[j].v2 == ps[j].v2
  }

  lemma {:induction false} StoredPointsFields(ps: seq<DataPoint>)
    ensures StoredPointsAt(ps)
    decreases |ps|
  {
    if |ps| > 0 {
      StoredPointsFields(ps[1..]);
    }
  }
}
