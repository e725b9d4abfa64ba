/**
 * `ConfluencePage2Dashboard.parse_html`: the records of the first table of a
 * Confluence page. BeautifulSoup's parsing is not modelled; its output is taken
 * as given: the first `table`, its first `tbody`, the `tr` rows of that body and
 * the flattened `.text` of each `td` cell.
 */
module ParseHtml {
  import opened Results
  import opened PyText

  /** The `.text` of each `td` cell of one `tr` row, in document order, unstripped. */
  type Row = seq<string>

  /** A `table` element: the `tr` rows of its first `tbody`, or `None` when it has none. */
  datatype Table = Table(tbody: Option<seq<Row>>)

  /** The parsed page body, as far as `parse_html` looks at it: its first `table`, if any. */
  datatype Soup = Soup(firstTable: Option<Table>)

  /** One dictionary appended to `data`: eight positional fields, named as in the table's columns. */
  datatype Record = Record(
    merchant: string,
    portal: string,
    paymentMethod: string,
    mi: string,
    sales: string,
    estPv: string,
    estGoLiveDate: string,
    state: string)

  /** The exceptions that escape `parse_html`. */
  datatype ExtractError =
    | NoTable            // `soup.find('table')` gave None, so `.find('tbody')` raises
    | NoTableBody        // `table.find('tbody')` gave None, so `.find_all('tr')` raises
    | ShortRow(row: nat) // `cols[k]` raised IndexError on `rows[row]`, which has fewer than eight cells

  /** The number of cells read from each data row. */
  const Columns := 8

  /** Field `k` of a record, in the order the dictionary is built from `cols[0]` to `cols[7]`. */
  function Field(rec: Record, k: nat): string
    requires k < Columns
  {
    if k == 0 then rec.merchant
    else if k == 1 then rec.portal
    else if k == 2 then rec.paymentMethod
    else if k == 3 then rec.mi
    else if k == 4 then rec.sales
    else if k == 5 then rec.estPv
    else if k == 6 then rec.estGoLiveDate
    else rec.state
  }

  /** `dict(merchant = cols[0], ..., state = cols[7])` */
  function RecordOf(cols: seq<string>): Record
    requires |cols| >= Columns
  {
    Record(cols[0], cols[1], cols[2], cols[3], cols[4], cols[5], cols[6], cols[7])
  }

  /** `[td_content.text.strip() for td_content in cols]` */
  function StripCells(row: Row): (cols: seq<string>)
    ensures |cols| == |row|
  {
    if row == [] then [] else [Strip(row[0])] + StripCells(row[1..])
  }

  /** Cell `k` of the stripped row is cell `k` of the row, stripped. */
  lemma {:induction false} StripCellsAt(row: Row, k: nat)
    requires k < |row|
    ensures StripCells(row)[k] == Strip(row[k])
    decreases k
  {
    if k > 0 {
      StripCellsAt(row[1..], k - 1);
    }
  }

  /** The record built from one data row: its first eight cells, stripped. */
  function MakeRecord(row: Row): Record
    requires |row| >= Columns
  {
    RecordOf(StripCells(row))
  }

  /** The records of `rows[i..]`, or the error raised by the first row that is too short. */
  function RecordsFrom(rows: seq<Row>, i: nat): Result<seq<Record>, ExtractError>
    requires i <= |rows|
    decreases |rows| - i
  {
    if i == |rows| then Success([])
    else if |rows[i]| < Columns then Failure(ShortRow(i))
    else
      match RecordsFrom(rows, i + 1)
      case Failure(e) => Failure(e)
      case Success(rs) => Success([MakeRecord(rows[i])] + rs)
  }

  /** What `parse_html` returns, or the error it raises. The first row, `rows[0]`, is skipped as the header. */
  function Extract(soup: Soup): Result<seq<Record>, ExtractError>
  {
    match soup.firstTable
    case None => Failure(NoTable)
    case Some(table) =>
      match table.tbody
      case None => Failure(NoTableBody)
      case Some(rows) => RecordsFrom(rows, if rows == [] then 0 else 1)
  }

  /** A page whose first table has a body with the given rows. */
  function WithRows(rows: seq<Row>): Soup
  {
    Soup(Some(Table(Some(rows))))
  }

  /** Every row of `rows` from index `lo` up to (not including) `hi` has at least eight cells. */
  predicate LongRows(rows: seq<Row>, lo: nat, hi: nat)
  {
    forall j :: lo <= j < hi && j < |rows| ==> |rows[j]| >= Columns
  }

  /** `RecordsFrom` succeeds exactly when every remaining row is long enough. */
  lemma {:induction false} RecordsFromSucceeds(rows: seq<Row>, i: nat)
    requires i <= |rows|
    ensures RecordsFrom(rows, i).Success? <==> LongRows(rows, i, |rows|)
    decreases |rows| - i
  {
    if i < |rows| {
      RecordsFromSucceeds(rows, i + 1);
    }
  }

  /** On success, `RecordsFrom` builds one record per remaining row, in order. */
  lemma {:induction false} RecordsFromValue(rows: seq<Row>, i: nat)
    requires i <= |rows| && RecordsFrom(rows, i).Success?
    ensures |RecordsFrom(rows, i).value| == |rows| - i
    ensures forall j :: i <= j < |rows| ==>
      |rows[j]| >= Columns && RecordsFrom(rows, i).value[j - i] == MakeRecord(rows[j])
    decreases |rows| - i
  {
    if i < |rows| {
      assert |rows[i]| >= Columns && RecordsFrom(rows, i + 1).Success?;
      RecordsFromValue(rows, i + 1);
      var rs := RecordsFrom(rows, i + 1).value;
      var r := RecordsFrom(rows, i).value;
      assert r == [MakeRecord(rows[i])] + rs;
      forall j | i <= j < |rows|
        ensures |rows[j]| >= Columns && r[j - i] == MakeRecord(rows[j])
      {
        if j > i {
          assert r[j - i] == rs[j - (i + 1)];
        }
      }
    }
  }

  /** On failure, `RecordsFrom` names the first remaining row that is too short. */
  lemma {:induction false} RecordsFromError(rows: seq<Row>, i: nat)
    requires i <= |rows| && RecordsFrom(rows, i).Failure?
    ensures RecordsFrom(rows, i).error.ShortRow?
    ensures i <= RecordsFrom(rows, i).error.row < |rows|
    ensures |rows[RecordsFrom(rows, i).error.row]| < Columns
    ensures LongRows(rows, i, RecordsFrom(rows, i).error.row)
    decreases |rows| - i
  {
    if |rows[i]| >= Columns {
      RecordsFromError(rows, i + 1);
    }
  }

  /**
   * `RecordsFrom` succeeds exactly when every remaining row is long enough; it
   * then builds one record per row, in order, and otherwise reports the first
   * row that is too short.
   */
  lemma RecordsFromSpec(rows: seq<Row>, i: nat)
    requires i <= |rows|
    ensures RecordsFrom(rows, i).Success? <==> LongRows(rows, i, |rows|)
    ensures RecordsFrom(rows, i).Success? ==>
      && |RecordsFrom(rows, i).value| == |rows| - i
      && forall j :: i <= j < |rows| ==>
           |rows[j]| >= Columns && RecordsFrom(rows, i).value[j - i] == MakeRecord(rows[j])
    ensures RecordsFrom(rows, i).Failure? ==>
      && RecordsFrom(rows, i).error.ShortRow?
      && i <= RecordsFrom(rows, i).error.row < |rows|
      && |rows[RecordsFrom(rows, i).error.row]| < Columns
      && LongRows(rows, i, RecordsFrom(rows, i).error.row)
  {
    RecordsFromSucceeds(rows, i);
    if RecordsFrom(rows, i).Success? {
      RecordsFromValue(rows, i);
    } else {
      RecordsFromError(rows, i);
    }
  }

  /** When every row after the header is long enough, the records are exactly those built from these rows. */
  lemma RecordsFromLongRows(rows: seq<Row>, data: seq<Record>)
    requires rows != [] && LongRows(rows, 1, |rows|)
    requires |data| == |rows| - 1
    requires forall j :: 0 <= j < |data| ==> |rows[j + 1]| >= Columns && data[j] == MakeRecord(rows[j + 1])
    ensures RecordsFrom(rows, 1) == Success(data)
  {
    RecordsFromSpec(rows, 1);
    var expected := RecordsFrom(rows, 1).value;
    assert |expected| == |data|;
    forall j | 0 <= j < |data| ensures data[j] == expected[j] {
      assert expected[(j + 1) - 1] == MakeRecord(rows[j + 1]);
    }
    assert data == expected;
  }

  /**
   * Extraction succeeds exactly when the page has a table, the table has a
   * body, and every row after the header has at least eight cells.
   */
  lemma ExtractSucceedsIff(soup: Soup)
    ensures Extract(soup).Success? <==>
      && soup.firstTable.Some?
      && soup.firstTable.value.tbody.Some?
      && LongRows(soup.firstTable.value.tbody.value, 1, |soup.firstTable.value.tbody.value|)
  {
    if soup.firstTable.Some? && soup.firstTable.value.tbody.Some? {
      var rows := soup.firstTable.value.tbody.value;
      RecordsFromSpec(rows, if rows == [] then 0 else 1);
    }
  }

  /** A missing table or a table without a body makes extraction fail, each with its own error. */
  lemma ExtractMissing(soup: Soup)
    ensures Extract(soup) == Failure(NoTable) <==> soup.firstTable.None?
    ensures Extract(soup) == Failure(NoTableBody) <==>
      soup.firstTable.Some? && soup.firstTable.value.tbody.None?
  {
    if soup.firstTable.Some? && soup.firstTable.value.tbody.Some? {
      var rows := soup.firstTable.value.tbody.value;
      RecordsFromSpec(rows, if rows == [] then 0 else 1);
    }
  }

  /** Field `k` of the record built from a row is the stripped text of cell `k`. */
  lemma MakeRecordFields(row: Row)
    requires |row| >= Columns
    ensures forall k :: 0 <= k < Columns ==>
      Field(MakeRecord(row), k) == Strip(row[k]) && IsStripped(Field(MakeRecord(row), k))
  {
    forall k | 0 <= k < Columns
      ensures Field(MakeRecord(row), k) == Strip(row[k]) && IsStripped(Field(MakeRecord(row), k))
    {
      StripCellsAt(row, k);
      StripIsStripped(row[k]);
    }
  }

  /** Only the first eight cells of a row matter: the rest are stripped and then dropped. */
  lemma MakeRecordIgnoresExtraCells(row: Row)
    requires |row| >= Columns
    ensures MakeRecord(row) == MakeRecord(row[..Columns])
  {
    var short := row[..Columns];
    forall k | 0 <= k < Columns ensures StripCells(row)[k] == StripCells(short)[k] {
      StripCellsAt(row, k);
      StripCellsAt(short, k);
    }
  }

  /**
   * On success there is one record per row after the header, in row order:
   * record `i` comes from row `i + 1`, and its field `k` is the stripped text
   * of that row's cell `k`, with no white space left at either end; cells
   * after the eighth are not looked at.
   */
  lemma ExtractRecords(rows: seq<Row>)
    requires Extract(WithRows(rows)).Success?
    ensures |Extract(WithRows(rows)).value| == if rows == [] then 0 else |rows| - 1
    ensures forall i, k :: 0 <= i < |Extract(WithRows(rows)).value| && 0 <= k < Columns ==>
      && |rows[i + 1]| >= Columns
      && Field(Extract(WithRows(rows)).value[i], k) == Strip(rows[i + 1][k])
      && IsStripped(Field(Extract(WithRows(rows)).value[i], k))
  {
    RecordsFromSpec(rows, if rows == [] then 0 else 1);
    var data := Extract(WithRows(rows)).value;
    forall i | 0 <= i < |data|
      ensures |rows[i + 1]| >= Columns && data[i] == MakeRecord(rows[i + 1])
    {
      assert |rows[i + 1]| >= Columns && data[(i + 1) - 1] == MakeRecord(rows[i + 1]);
    }
    forall i | 0 <= i < |data|
      ensures forall k :: 0 <= k < Columns ==>
        Field(data[i], k) == Strip(rows[i + 1][k]) && IsStripped(Field(data[i], k))
    {
      MakeRecordFields(rows[i + 1]);
    }
  }

  /**
   * A row after the header with fewer than eight cells makes extraction fail,
   * and the error names the first such row.
   */
  lemma ExtractShortRow(rows: seq<Row>, r: nat)
    requires 1 <= r < |rows| && |rows[r]| < Columns
    requires LongRows(rows, 1, r)
    ensures Extract(WithRows(rows)) == Failure(ShortRow(r))
  {
    RecordsFromSpec(rows, 1);
  }

  /** The header row is never inspected: replacing it does not change the outcome. */
  lemma ExtractIgnoresHeader(rows: seq<Row>, header: Row)
    requires rows != []
    ensures Extract(WithRows(rows[0 := header])) == Extract(WithRows(rows))
  {
    SameRowsFrom(rows, rows[0 := header], 1);
  }

  lemma {:induction false} SameRowsFrom(rows: seq<Row>, rows': seq<Row>, i: nat)
    requires 1 <= i <= |rows| == |rows'|
    requires forall j :: 1 <= j < |rows| ==> rows[j] == rows'[j]
    ensures RecordsFrom(rows, i) == RecordsFrom(rows', i)
    decreases |rows| - i
  {
    if i < |rows| {
      SameRowsFrom(rows, rows', i + 1);
    }
  }

  /**
   * `parse_html`: skip the header row, strip every cell of each further row and
   * append the record built from its first eight cells to `data`.
   */
  method ParseHtml(soup: Soup) returns (res: Result<seq<Record>, ExtractError>)
    ensures res == Extract(soup)
  {
    if soup.firstTable.None? {
      return Failure(NoTable);
    }
    var table := soup.firstTable.value;
    if table.tbody.None? {
      return Failure(NoTableBody);
    }
    var rows := table.tbody.value;
    var data: seq<Record> := [];
    var i := 1;
    while i < |rows|
      invariant 1 <= i && (rows == [] ==> i == 1) && (rows != [] ==> i <= |rows|)
      invariant LongRows(rows, 1, i)
      invariant |data| == i - 1
      invariant forall j :: 0 <= j < |data| ==> |rows[j + 1]| >= Columns && data[j] == MakeRecord(rows[j + 1])
    {
      var cols := StripCells(rows[i]);
      if |cols| < Columns {
        ExtractShortRow(rows, i);
        return Failure(ShortRow(i));
      }
      assert RecordOf(cols) == MakeRecord(rows[i]);
      data := data + [RecordOf(cols)];
      i := i + 1;
    }
    if rows != [] {
      RecordsFromLongRows(rows, data);
    }
    return Success(data);
  }
}
