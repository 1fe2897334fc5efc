/** The list-model face of the sensor model: how many rows it reports and
    what it answers for a row and a role. */
module ListModel {
  import opened Wrappers
  import opened Ints
  import opened Sensors
  import opened JsonTree
  import opened Store

  /** `Qt::UserRole`, and the model's roles numbered consecutively after it. */
  const UserRole: int := 0x0100
  const IdRole: int := UserRole + 1
  const NameRole: int := UserRole + 2
  const DataRole: int := UserRole + 3

  /** A `QModelIndex`: invalid (the root), or valid at a row. */
  datatype ModelIndex = Invalid | Valid(row: int)

  /** What `data` answers for a role. The sample list has the shape of the
      store's `data` array: one `{time, v1, v2}` object per sample. */
  datatype RoleValue =
    | IdValue(id: Int32)
    | NameValue(name: string)
    | DataValue(points: Json)

  /** `rowCount`: the list is flat. The root has one row per sensor and a
      row has no rows beneath it. */
  function RowCount(m: SensorModel, parent: ModelIndex): (r: nat)
    ensures parent.Invalid? ==> r == |m.sensors|
    ensures parent.Valid? ==> r == 0
  {
    if parent.Valid? then 0 else |m.sensors|
  }

  /** `data`: nothing for an invalid index, a row outside the model or an
      unknown role; otherwise the row's sensor's id, name or samples. */
  function Data(m: SensorModel, index: ModelIndex, role: int): (r: Option<RoleValue>)
    ensures r.Some? ==> index.Valid? && 0 <= index.row < |m.sensors|
    ensures r.Some? <==> index.Valid? && 0 <= index.row < |m.sensors| && IdRole <= role <= DataRole
    ensures r.Some? && role == IdRole ==> r.value == IdValue(m.sensors[index.row].id)
    ensures r.Some? && role == NameRole ==> r.value == NameValue(m.sensors[index.row].name)
  {
    match index
    case Invalid => None
    case Valid(row) =>
      if row < 0 || row >= |m.sensors| then None
      else
        var s := m.sensors[row];
        if role == IdRole then Some(IdValue(s.id))
        else if role == NameRole then Some(NameValue(s.name))
        else if role == DataRole then Some(DataValue(JArray(EncodePoints(s.data))))
        else None
  }

  /** The rows that answer are exactly the rows the root reports: every row
      below `rowCount` answers each of the three roles, and no row at or
      above it answers any. */
  lemma {:induction false} DataAnswersExactlyBelowRowCount(m: SensorModel, row: int, role: int)
    requires IdRole <= role <= DataRole
    ensures Data(m, Valid(row), role).Some? <==> 0 <= row < RowCount(m, Invalid)
  {
  }
}
