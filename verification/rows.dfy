/** Decoding one data line and grouping its cells into one sample per sensor. */
module Rows {
  import opened Wrappers
  import opened Ints
  import opened Text
  import opened Sensors
  import opened OrderedMap
  import opened Header

  /** `QString::toDouble` after the comma-to-dot replacement: the number a
      string spells, or `None` when it spells none. It comes from a library
      this model does not describe, so it is a parameter. */
  type Parser = string -> Option<real>

  /** An accepted data line: its time and all its cells (the time cell is
      cell 0). */
  datatype Row = Row(time: real, cells: seq<string>)

  /** Decoding a data line. The line is trimmed and split on whitespace; it
      is skipped when it has fewer than two cells (an empty line has none),
      or when its first cell does not parse as a number. */
  function DecodeRow(line: string, parse: Parser): (r: Option<Row>)
    ensures AllSpace(line) ==> r.None?
    ensures r.Some? <==>
      var cells := SplitWs(Trim(line));
      |cells| >= 2 && parse(CommaToDot(cells[0])).Some?
    ensures r.Some? ==> r.value.cells == SplitWs(Trim(line))
    ensures r.Some? ==> Some(r.value.time) == parse(CommaToDot(r.value.cells[0]))
  {
    var t := Trim(line);
    if t == [] then None
    else
      var cells := SplitWs(t);
      if |cells| < 2 then None
      else
        match parse(CommaToDot(cells[0]))
        case None => None
        case Some(time) => Some(Row(time, cells))
  }

  /** The value of one cell: its number after the comma-to-dot replacement,
      and 0.0 when it does not parse. */
  function CellValue(cell: string, parse: Parser): real {
    parse(CommaToDot(cell)).GetOr(0.0)
  }

  /** The sample a sensor's first mapped column in a row starts from. */
  function FreshPoint(time: real): DataPoint {
    DataPoint(time, 0.0, 0.0, Some(0.0), Some(0.0))
  }

  function SetChannel(p: DataPoint, ch: Channel, v: real): DataPoint {
    match ch
    case A => p.(v1 := v)
    case B => p.(v2 := v)
  }

  /** The per-sensor samples of a row after its columns 1 .. n-1 have been
      visited: each mapped column creates its sensor's sample on first sight
      and then sets the channel it carries. */
  function RowPointsUpTo(row: Row, cmap: map<nat, Column>, parse: Parser, n: nat): (pts: OMap<DataPoint>)
    requires n <= |row.cells|
    ensures Valid(pts)
    decreases n
  {
    if n <= 1 then []
    else
      var pts := RowPointsUpTo(row, cmap, parse, n - 1);
      var i := n - 1;
      if i !in cmap then pts
      else
        var c := cmap[i];
        var p := Get(pts, c.sensorId).GetOr(FreshPoint(row.time));
        Put(pts, c.sensorId, SetChannel(p, c.channel, CellValue(row.cells[i], parse)))
  }

  /** The per-sensor samples of a whole row, in ascending sensor id. */
  function RowPoints(row: Row, cmap: map<nat, Column>, parse: Parser): OMap<DataPoint> {
    RowPointsUpTo(row, cmap, parse, |row.cells|)
  }

  // ---------------------------------------------------------------------
  // Reference definition of a row's samples

  /** Column `j` carries channel `ch` of sensor `id`. */
  predicate MapsTo(cmap: map<nat, Column>, j: nat, id: int, ch: Channel) {
    j in cmap && cmap[j].sensorId == id && cmap[j].channel == ch
  }

  /** The last of the columns 1 .. n-1 that carries channel `ch` of sensor `id`. */
  function LastColumn(cmap: map<nat, Column>, id: int, ch: Channel, n: nat): (r: Option<nat>)
    ensures r.Some? ==> 1 <= r.value < n && MapsTo(cmap, r.value, id, ch)
    ensures r.Some? ==> forall j: nat :: r.value < j < n ==> !MapsTo(cmap, j, id, ch)
    ensures r.None? <==> forall j: nat :: 1 <= j < n ==> !MapsTo(cmap, j, id, ch)
    decreases n
  {
    if n <= 1 then None
    else if MapsTo(cmap, n - 1, id, ch) then Some(n - 1)
    else LastColumn(cmap, id, ch, n - 1)
  }

  /** The value channel `ch` of sensor `id` takes in a row (columns 1 .. n-1):
      the value of the last column carrying it, or 0.0 when none does. */
  function ChannelValue(row: Row, cmap: map<nat, Column>, parse: Parser, id: int, ch: Channel, n: nat): real
    requires n <= |row.cells|
  {
    match LastColumn(cmap, id, ch, n)
    case None => 0.0
    case Some(i) => CellValue(row.cells[i], parse)
  }

  /** The sensors that have a mapped column among columns 1 .. n-1. */
  function RowIds(cmap: map<nat, Column>, n: nat): set<Int32> {
    set j: nat | 1 <= j < n && j in cmap :: cmap[j].sensorId
  }

  /** The sample sensor `id` gets from a row: the row's time, each channel
      from its last column in the row (0.0 without one), corrections zero. */
  function ExpectedPoint(row: Row, cmap: map<nat, Column>, parse: Parser, id: int, n: nat): DataPoint
    requires n <= |row.cells|
  {
    DataPoint(
      row.time,
      ChannelValue(row, cmap, parse, id, A, n),
      ChannelValue(row, cmap, parse, id, B, n),
      Some(0.0), Some(0.0))
  }

  /** Per-row grouping. A row yields exactly one sample for each sensor with
      a mapped column at index 1 or above (the time column 0 and unmapped
      columns never contribute), and that sample carries the row's time, the
      value of the last column of each channel, and 0.0 for a channel with
      no column in the row. */
  lemma {:induction false} RowPointsUpToSpec(row: Row, cmap: map<nat, Column>, parse: Parser, n: nat)
    requires n <= |row.cells|
    ensures Keys(RowPointsUpTo(row, cmap, parse, n)) == RowIds(cmap, n)
    ensures forall id :: id in RowIds(cmap, n) ==>
      Get(RowPointsUpTo(row, cmap, parse, n), id) == Some(ExpectedPoint(row, cmap, parse, id, n))
    decreases n
  {
    if n > 1 {
      RowPointsUpToSpec(row, cmap, parse, n - 1);
      RowStep(row, cmap, parse, n);
    } else {
      assert RowIds(cmap, n) == {};
    }
  }

  /** The samples of columns 1 .. n-1 are those of the reference definition. */
  ghost predicate PointsAsExpected(row: Row, cmap: map<nat, Column>, parse: Parser, n: nat)
    requires n <= |row.cells|
  {
    && Keys(RowPointsUpTo(row, cmap, parse, n)) == RowIds(cmap, n)
    && forall id :: id in RowIds(cmap, n) ==>
         Get(RowPointsUpTo(row, cmap, parse, n), id) == Some(ExpectedPoint(row, cmap, parse, id, n))
  }

  /** One more column keeps the samples as the reference definition says. */
  lemma {:induction false} RowStep(row: Row, cmap: map<nat, Column>, parse: Parser, n: nat)
    requires 1 < n <= |row.cells|
    requires PointsAsExpected(row, cmap, parse, n - 1)
    ensures PointsAsExpected(row, cmap, parse, n)
  {
    var i := n - 1;
    if i !in cmap {
      RowStepWithoutColumn(row, cmap, parse, n);
    } else {
      assert RowIds(cmap, n) == RowIds(cmap, n - 1) + {cmap[i].sensorId};
      RowStepWithColumn(row, cmap, parse, n, RowPointsUpTo(row, cmap, parse, n - 1));
    }
  }

  /** A column without a mapping leaves every sample of the row as it was. */
  lemma {:induction false} RowStepWithoutColumn(row: Row, cmap: map<nat, Column>, parse: Parser, n: nat)
    requires 1 < n <= |row.cells| && n - 1 !in cmap
    ensures RowPointsUpTo(row, cmap, parse, n) == RowPointsUpTo(row, cmap, parse, n - 1)
    ensures RowIds(cmap, n) == RowIds(cmap, n - 1)
    ensures forall id :: ExpectedPoint(row, cmap, parse, id, n) == ExpectedPoint(row, cmap, parse, id, n - 1)
  {
    assert RowIds(cmap, n) == RowIds(cmap, n - 1);
    forall id ensures ExpectedPoint(row, cmap, parse, id, n) == ExpectedPoint(row, cmap, parse, id, n - 1) {
      assert LastColumn(cmap, id, A, n) == LastColumn(cmap, id, A, n - 1);
      assert LastColumn(cmap, id, B, n) == LastColumn(cmap, id, B, n - 1);
    }
  }

  lemma {:induction false} RowStepWithColumn(row: Row, cmap: map<nat, Column>, parse: Parser, n: nat, prev: OMap<DataPoint>)
    requires 1 < n <= |row.cells| && n - 1 in cmap
    requires prev == RowPointsUpTo(row, cmap, parse, n - 1)
    requires Keys(prev) == RowIds(cmap, n - 1)
    requires forall id :: id in RowIds(cmap, n - 1) ==>
      Get(prev, id) == Some(ExpectedPoint(row, cmap, parse, id, n - 1))
    requires RowIds(cmap, n) == RowIds(cmap, n - 1) + {cmap[n - 1].sensorId}
    ensures Keys(RowPointsUpTo(row, cmap, parse, n)) == RowIds(cmap, n)
    ensures forall id :: id in RowIds(cmap, n) ==>
      Get(RowPointsUpTo(row, cmap, parse, n), id) == Some(ExpectedPoint(row, cmap, parse, id, n))
  {
    var c := cmap[n - 1];
    var r := RowPointsUpTo(row, cmap, parse, n);
    ColumnOwnSample(row, cmap, parse, n, prev);
    forall id | id in RowIds(cmap, n) && id != c.sensorId
      ensures Get(r, id) == Some(ExpectedPoint(row, cmap, parse, id, n))
    {
      ColumnOtherSample(row, cmap, parse, n, prev, id);
    }
  }

  /** The sample of the column's own sensor takes the column's value on the
      column's channel. */
  lemma {:induction false} ColumnOwnSample(row: Row, cmap: map<nat, Column>, parse: Parser, n: nat, prev: OMap<DataPoint>)
    requires 1 < n <= |row.cells| && n - 1 in cmap
    requires prev == RowPointsUpTo(row, cmap, parse, n - 1)
    requires Keys(prev) == RowIds(cmap, n - 1)
    requires forall id :: id in RowIds(cmap, n - 1) ==>
      Get(prev, id) == Some(ExpectedPoint(row, cmap, parse, id, n - 1))
    ensures Get(RowPointsUpTo(row, cmap, parse, n), cmap[n - 1].sensorId)
            == Some(ExpectedPoint(row, cmap, parse, cmap[n - 1].sensorId, n))
  {
    var i := n - 1;
    var c := cmap[i];
    var r := RowPointsUpTo(row, cmap, parse, n);
    var old_p := Get(prev, c.sensorId).GetOr(FreshPoint(row.time));
    var v := CellValue(row.cells[i], parse);
    assert r == Put(prev, c.sensorId, SetChannel(old_p, c.channel, v));
    if c.sensorId !in RowIds(cmap, n - 1) {
      LastColumnInRowIds(cmap, c.sensorId, A, n - 1);
      LastColumnInRowIds(cmap, c.sensorId, B, n - 1);
    }
    assert old_p == ExpectedPoint(row, cmap, parse, c.sensorId, n - 1);
    assert LastColumn(cmap, c.sensorId, c.channel, n) == Some(i);
    var other := if c.channel == A then B else A;
    assert LastColumn(cmap, c.sensorId, other, n) == LastColumn(cmap, c.sensorId, other, n - 1);
  }

  /** Every other sensor of the row keeps its sample. */
  lemma {:induction false} ColumnOtherSample(row: Row, cmap: map<nat, Column>, parse: Parser, n: nat, prev: OMap<DataPoint>, id: Int32)
    requires 1 < n <= |row.cells| && n - 1 in cmap
    requires prev == RowPointsUpTo(row, cmap, parse, n - 1)
    requires id in RowIds(cmap, n - 1) && id != cmap[n - 1].sensorId
    requires Get(prev, id) == Some(ExpectedPoint(row, cmap, parse, id, n - 1))
    ensures Get(RowPointsUpTo(row, cmap, parse, n), id) == Some(ExpectedPoint(row, cmap, parse, id, n))
  {
    var i := n - 1;
    var c := cmap[i];
    var old_p := Get(prev, c.sensorId).GetOr(FreshPoint(row.time));
    var v := CellValue(row.cells[i], parse);
    assert RowPointsUpTo(row, cmap, parse, n) == Put(prev, c.sensorId, SetChannel(old_p, c.channel, v));
    assert LastColumn(cmap, id, A, n) == LastColumn(cmap, id, A, n - 1);
    assert LastColumn(cmap, id, B, n) == LastColumn(cmap, id, B, n - 1);
  }

  lemma {:induction false} LastColumnInRowIds(cmap: map<nat, Column>, id: Int32, ch: Channel, n: nat)
    ensures LastColumn(cmap, id, ch, n).Some? ==> id in RowIds(cmap, n)
  {
    var l := LastColumn(cmap, id, ch, n);
    if l.Some? {
      var j: nat := l.value;
      assert 1 <= j < n && j in cmap && cmap[j].sensorId == id;
    }
  }

  /** The row-level statement of per-row grouping. */
  lemma {:induction false} RowPointsSpec(row: Row, cmap: map<nat, Column>, parse: Parser)
    ensures Keys(RowPoints(row, cmap, parse)) == RowIds(cmap, |row.cells|)
    ensures forall id :: id in RowIds(cmap, |row.cells|) ==>
      Get(RowPoints(row, cmap, parse), id) == Some(ExpectedPoint(row, cmap, parse, id, |row.cells|))
  {
    RowPointsUpToSpec(row, cmap, parse, |row.cells|);
  }
}
