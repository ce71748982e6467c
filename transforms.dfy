/**
 * The export transformation: the transactions of a list response become the rows of a
 * six-column table, with empty cells where a transaction has no recurrence day,
 * category or card.
 */
module Transforms {
  import opened Outcomes
  import opened Dates
  import opened Requests

  /** The table's columns, in order. */
  const Columns: seq<string> := ["Descrição", "Data", "Recorrência", "Categoria", "Cartão", "Valor"]

  /** One row of the table; `None` is an empty cell. */
  datatype ExportRow = ExportRow(
    description: string,
    date: Option<Date>,
    recurrence: Option<int>,
    category: Option<string>,
    card: Option<string>,
    amount: int)

  datatype Frame = Frame(columns: seq<string>, rows: seq<ExportRow>)

  /** What the transformation is handed: a list response (whose data may be absent) or some other object. */
  datatype RawData = Mapped(data: Option<seq<ExportItem>>) | Unmapped(typeName: string)

  const NoData: string := "No data provided for transformation"

  /** Every failure inside the transformation reaches the caller re-raised with this prefix. */
  function TransformFailure(message: string): Exception {
    DataTransformationError("An error occurred while transforming data: " + message)
  }

  /** The row of one transaction: a zero or absent recurrence day and a missing relation are empty cells. */
  function RowOf(t: ExportItem): (row: ExportRow)
    ensures row.description == t.description && row.date == t.date && row.amount == t.amount
    ensures row.recurrence.None? <==> t.recurringDay.None? || t.recurringDay.value == 0
    ensures row.recurrence.Some? ==> row.recurrence == t.recurringDay
    ensures row.category == (if t.category.Some? then Some(t.category.value.description) else None)
    ensures row.card == (if t.creditCard.Some? then Some(t.creditCard.value.name) else None)
  {
    ExportRow(
      t.description,
      t.date,
      if t.recurringDay.Some? && t.recurringDay.value != 0 then t.recurringDay else None,
      match t.category case Some(c) => Some(c.description) case None => None,
      match t.creditCard case Some(c) => Some(c.name) case None => None,
      t.amount)
  }

  /** The table for `raw`, or the transformation error it raises. */
  function Transformed(raw: RawData): (r: Result<Frame>)
    ensures r.Err? ==> r.error.DataTransformationError?
    ensures r.Ok? <==> raw.Mapped? && raw.data.Some? && raw.data.value != []
    ensures r.Ok? ==> r.value.columns == Columns && |r.value.rows| == |raw.data.value|
    ensures r.Ok? ==> forall i :: 0 <= i < |raw.data.value| ==> r.value.rows[i] == RowOf(raw.data.value[i])
  {
    match raw
    case Unmapped(name) => Err(TransformFailure("'" + name + "' object has no attribute 'data'"))
    case Mapped(data) =>
      if data.None? || data.value == [] then Err(TransformFailure(NoData))
      else Ok(Frame(Columns, MapSeq(RowOf, data.value)))
  }

  /** `transform_data`: checks for data, then appends one row per transaction. */
  method TransformData(raw: RawData) returns (r: Result<Frame>)
    ensures r == Transformed(raw)
  {
    if raw.Unmapped? {
      return Err(TransformFailure("'" + raw.typeName + "' object has no attribute 'data'"));
    }
    if raw.data.None? || raw.data.value == [] {
      return Err(TransformFailure(NoData));
    }
    var items := raw.data.value;
    var rows: seq<ExportRow> := [];
    var i := 0;
    while i < |items|
      invariant 0 <= i <= |items|
      invariant |rows| == i
      invariant forall k :: 0 <= k < i ==> rows[k] == RowOf(items[k])
    {
      rows := rows + [RowOf(items[i])];
      i := i + 1;
    }
    assert rows == MapSeq(RowOf, items);
    r := Ok(Frame(Columns, rows));
  }

  /** A table comes out exactly for a non-empty list: six fixed columns and one row per transaction, in order. */
  lemma TransformedShape(raw: RawData)
    ensures Transformed(raw).Ok? <==> raw.Mapped? && raw.data.Some? && raw.data.value != []
    ensures Transformed(raw).Ok? ==>
      Transformed(raw).value.columns == Columns
      && |Transformed(raw).value.rows| == |raw.data.value|
      && forall i :: 0 <= i < |raw.data.value| ==> Transformed(raw).value.rows[i] == RowOf(raw.data.value[i])
  {
  }

  /** Every failure is a transformation error; an empty list fails with the no-data message. */
  lemma TransformedFailures(raw: RawData)
    ensures Transformed(raw).Err? ==> Transformed(raw).error.DataTransformationError?
    ensures raw == Mapped(Some([])) ==> Transformed(raw) == Err(TransformFailure(NoData))
    ensures raw.Unmapped? ==> Transformed(raw).Err?
  {
  }

  /**
   * A recurring transaction without a date and card, and a dated one with neither
   * recurrence nor card, give a row each with empty cells where the values are missing.
   */
  lemma TwoRowsExample(c: CategoryView, k: CreditCardView)
    ensures Transformed(Mapped(Some([ExportItem("a", None, Some(5), 10000, Some(c), Some(k)),
                                     ExportItem("b", Some(Date(2024, 2, 11)), None, 20000, Some(c), None)])))
            == Ok(Frame(Columns, [ExportRow("a", None, Some(5), Some(c.description), Some(k.name), 10000),
                                  ExportRow("b", Some(Date(2024, 2, 11)), None, Some(c.description), None, 20000)]))
  {
    var items := [ExportItem("a", None, Some(5), 10000, Some(c), Some(k)),
                  ExportItem("b", Some(Date(2024, 2, 11)), None, 20000, Some(c), None)];
    assert MapSeq(RowOf, items) == [RowOf(items[0]), RowOf(items[1])];
  }
}
