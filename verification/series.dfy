/** Per-sensor accumulation: every accepted data line appends its per-sensor
    samples to the series of those sensors, creating a sensor named
    `Sensor <id>` the first time its id is seen. */
module Series {
  import opened Wrappers
  import opened Ints
  import opened Sensors
  import opened OrderedMap
  import opened Header
  import opened Rows

  /** The sensors gathered so far, keyed by id (`QMap<int, Sensor>`). */
  type Gathered = OMap<Sensor>

  /** The sensor `id` after sample `p` is appended to it, starting from a
      new `Sensor <id>` when there is none yet. */
  function Extended(s: Option<Sensor>, id: Int32, p: DataPoint): Sensor {
    var base := s.GetOr(NewSensor(id, SensorName(id)));
    base.(data := base.data + [p])
  }

  function AppendPoint(acc: Gathered, id: Int32, p: DataPoint): Gathered
    requires Valid(acc)
  {
    Put(acc, id, Extended(Get(acc, id), id, p))
  }

  /** Append a row's samples, visiting them in ascending sensor id. */
  function AppendRow(acc: Gathered, pts: OMap<DataPoint>): (r: Gathered)
    requires Valid(acc)
    ensures Valid(r)
    decreases |pts|
  {
    if |pts| == 0 then acc
    else AppendRow(AppendPoint(acc, pts[0].0, pts[0].1), pts[1..])
  }

  /** What appending a row does to one sensor: a sensor the row has no
      sample for is untouched, and one it has a sample for gets exactly that
      sample appended at the end. */
  function AfterRow(acc: Gathered, pts: OMap<DataPoint>, id: Int32): Option<Sensor> {
    match Get(pts, id)
    case None => Get(acc, id)
    case Some(p) => Some(Extended(Get(acc, id), id, p))
  }

  lemma {:induction false} AppendRowSpec(acc: Gathered, pts: OMap<DataPoint>, id: Int32)
    requires Valid(acc) && Valid(pts)
    ensures Get(AppendRow(acc, pts), id) == AfterRow(acc, pts, id)
    decreases |pts|
  {
    if |pts| > 0 {
      var acc' := AppendPoint(acc, pts[0].0, pts[0].1);
      ValidTail(pts);
      assert AppendRow(acc, pts) == AppendRow(acc', pts[1..]);
      AppendRowSpec(acc', pts[1..], id);
      AppendFirstPoint(acc, pts, id);
    }
  }

  /** Appending a row's first sample and then the rest of the row does to
      one sensor what the whole row does. */
  lemma {:induction false} AppendFirstPoint(acc: Gathered, pts: OMap<DataPoint>, id: Int32)
    requires Valid(acc) && Valid(pts) && |pts| > 0
    ensures AfterRow(AppendPoint(acc, pts[0].0, pts[0].1), pts[1..], id) == AfterRow(acc, pts, id)
  {
    var x := pts[0];
    var rest := pts[1..];
    var acc' := AppendPoint(acc, x.0, x.1);
    ValidTail(pts);
    assert pts == [x] + rest;
    GetCons(x, rest, id);
    if id == x.0 {
      assert Get(rest, id) == None;
      assert Get(acc', id) == Some(Extended(Get(acc, id), id, x.1));
    } else {
      assert Get(acc', id) == Get(acc, id);
    }
  }

  /** One turn of the data loop: a skipped line leaves the gathered
      sensors alone, an accepted one appends its samples. */
  function Step(acc: Gathered, line: string, cmap: map<nat, Column>, parse: Parser): (r: Gathered)
    requires Valid(acc)
    ensures Valid(r)
  {
    match DecodeRow(line, parse)
    case None => acc
    case Some(row) => AppendRow(acc, RowPoints(row, cmap, parse))
  }

  /** The state of the data loop after the given lines. */
  function Accumulate(lines: seq<string>, cmap: map<nat, Column>, parse: Parser): (acc: Gathered)
    ensures Valid(acc)
    decreases |lines|
  {
    if |lines| == 0 then []
    else Step(Accumulate(lines[..|lines| - 1], cmap, parse), lines[|lines| - 1], cmap, parse)
  }

  // ---------------------------------------------------------------------
  // Reference definition: one sensor's series, filtered out of the lines

  /** The sample sensor `id` gets from one line, by the reference
      definition of a row's samples: none when the line is skipped or has no
      mapped column of that sensor. */
  function LinePoint(line: string, cmap: map<nat, Column>, parse: Parser, id: Int32): Option<DataPoint> {
    match DecodeRow(line, parse)
    case None => None
    case Some(row) =>
      if id in RowIds(cmap, |row.cells|) then Some(ExpectedPoint(row, cmap, parse, id, |row.cells|)) else None
  }

  /** The grouping the converter runs gives each sensor the sample that the
      reference definition assigns it. */
  lemma {:induction false} RowPointIsLinePoint(line: string, cmap: map<nat, Column>, parse: Parser, id: Int32)
    requires DecodeRow(line, parse).Some?
    ensures Get(RowPoints(DecodeRow(line, parse).value, cmap, parse), id) == LinePoint(line, cmap, parse, id)
  {
    RowPointsSpec(DecodeRow(line, parse).value, cmap, parse);
  }

  /** Sensor `id`'s samples, one per line that has one, in line order. */
  function SeriesOf(lines: seq<string>, cmap: map<nat, Column>, parse: Parser, id: Int32): seq<DataPoint>
    decreases |lines|
  {
    if |lines| == 0 then []
    else
      SeriesOf(lines[..|lines| - 1], cmap, parse, id)
      + match LinePoint(lines[|lines| - 1], cmap, parse, id)
        case None => []
        case Some(p) => [p]
  }

  /** The sensor the converter builds for `id` out of its series. */
  function BuiltSensor(id: Int32, series: seq<DataPoint>): Sensor {
    Sensor(id, SensorName(id), series, 1.0, 1.0)
  }

  /** What a sensor looks like after the data loop, by the reference
      definition: absent when no line gave it a sample, otherwise
      `Sensor <id>` with its series. */
  function Expected(lines: seq<string>, cmap: map<nat, Column>, parse: Parser, id: Int32): Option<Sensor> {
    var series := SeriesOf(lines, cmap, parse, id);
    if series == [] then None else Some(BuiltSensor(id, series))
  }

  lemma {:induction false} StepSpec(acc: Gathered, line: string, cmap: map<nat, Column>, parse: Parser, id: Int32)
    requires Valid(acc)
    ensures Get(Step(acc, line, cmap, parse), id) ==
      match LinePoint(line, cmap, parse, id)
      case None => Get(acc, id)
      case Some(p) => Some(Extended(Get(acc, id), id, p))
  {
    match DecodeRow(line, parse)
    case None =>
    case Some(row) =>
      RowPointIsLinePoint(line, cmap, parse, id);
      AppendRowSpec(acc, RowPoints(row, cmap, parse), id);
  }

  /** Per-sensor accumulation. A sensor is present after the data loop
      exactly when some line gave it a sample; it is then `Sensor <id>` with
      identity coefficients, and its series is its samples in line order. */
  lemma {:induction false} AccumulateSpec(lines: seq<string>, cmap: map<nat, Column>, parse: Parser, id: Int32)
    ensures Get(Accumulate(lines, cmap, parse), id) == Expected(lines, cmap, parse, id)
    decreases |lines|
  {
    if |lines| > 0 {
      var init := lines[..|lines| - 1];
      var last := lines[|lines| - 1];
      AccumulateSpec(init, cmap, parse, id);
      StepSpec(Accumulate(init, cmap, parse), last, cmap, parse, id);
      var before := SeriesOf(init, cmap, parse, id);
      match LinePoint(last, cmap, parse, id)
      case None =>
        assert SeriesOf(lines, cmap, parse, id) == before + [];
        assert before + [] == before;
      case Some(p) =>
        assert SeriesOf(lines, cmap, parse, id) == before + [p];
        if before == [] { assert before + [p] == [p]; }
    }
  }
}
