/** The spreadsheet side of the watcher (`append_to_xlsx`): the new records are appended
    as rows, then every data row is re-banded, alternating the fill each time the
    date column changes value. */
module Report {
  import opened Outcomes
  import Assembler

  /** A cell's value; `None` is an empty cell. */
  type Cell = Option<string>

  /** One worksheet row below the header: date, page locator, info. */
  datatype Row = Row(date: Cell, locator: Cell, info: Cell)

  /** The header a new workbook starts with. */
  const HeaderRow: seq<Cell> := [Some("Date"), Some("Page Number"), Some("Info")]

  /** The row `ws.append([date_str, page_str, info])` writes for a record. */
  function RowOf(r: Assembler.Record): Row {
    Row(Some(r.date), Some(r.locator), Some(r.info))
  }

  function RowsOf(rs: seq<Assembler.Record>): (rows: seq<Row>)
    ensures |rows| == |rs|
    ensures forall i :: 0 <= i < |rs| ==> rows[i] == RowOf(rs[i])
  {
    if rs == [] then [] else RowsOf(rs[..|rs| - 1]) + [RowOf(rs[|rs| - 1])]
  }

  function DateColumn(rows: seq<Row>): (dates: seq<Cell>)
    ensures |dates| == |rows|
    ensures forall i :: 0 <= i < |rows| ==> dates[i] == rows[i].date
  {
    if rows == [] then [] else DateColumn(rows[..|rows| - 1]) + [rows[|rows| - 1].date]
  }

  /** `prev_date` and `band` after the banding loop has read `dates`. */
  datatype Scanned = Scanned(prev: Cell, band: bool)

  function Scan(dates: seq<Cell>): Scanned {
    if dates == [] then Scanned(None, false)
    else
      var s := Scan(dates[..|dates| - 1]);
      var d := dates[|dates| - 1];
      if d != s.prev then Scanned(d, !s.band) else s
  }

  /** Whether each row is banded: the value of `band` when the loop reaches it. */
  function Bands(dates: seq<Cell>): (bs: seq<bool>)
    ensures |bs| == |dates|
  {
    seq(|dates|, j requires 0 <= j < |dates| => Scan(dates[..j + 1]).band)
  }

  /** The cell before position `i` as the loop compares it: `None` before the first row. */
  function Before(dates: seq<Cell>, i: nat): Cell
    requires i <= |dates|
  {
    if i == 0 then None else dates[i - 1]
  }

  /** Number of rows whose date differs from the date the loop compared it with. */
  function Changes(dates: seq<Cell>): nat {
    if dates == [] then 0
    else Changes(dates[..|dates| - 1]) + (if dates[|dates| - 1] != Before(dates, |dates| - 1) then 1 else 0)
  }

  /** `prev_date` is always the date of the row read last. */
  lemma ScanPrev(dates: seq<Cell>)
    ensures Scan(dates).prev == Before(dates, |dates|)
  {
  }

  /** Reference definition of the banding: a row is banded exactly when the number of
      date changes up to and including it is odd. */
  lemma {:induction false} BandIsParity(dates: seq<Cell>)
    ensures Scan(dates).band <==> Changes(dates) % 2 == 1
  {
    if dates != [] {
      var init := dates[..|dates| - 1];
      BandIsParity(init);
      ScanPrev(init);
      assert Before(init, |init|) == Before(dates, |dates| - 1);
    }
  }

  /** The first row is banded unless its date cell is empty. */
  lemma FirstRowBanded(dates: seq<Cell>)
    requires dates != []
    ensures Bands(dates)[0] <==> dates[0] != None
  {
    var first := dates[..1];
    assert first[..0] == [] && first[0] == dates[0];
    assert Bands(dates)[0] == Scan(first).band;
  }

  /** Adjacent rows with equal dates share a band; a different date flips it. */
  lemma NeighbourBands(dates: seq<Cell>, i: nat)
    requires i + 1 < |dates|
    ensures Bands(dates)[i + 1] == if dates[i + 1] == dates[i] then Bands(dates)[i] else !Bands(dates)[i]
  {
    var p := dates[..i + 2];
    assert p[..|p| - 1] == dates[..i + 1];
    ScanPrev(dates[..i + 1]);
  }

  /** Appending rows never changes the bands of the rows already there. */
  lemma BandsStable(a: seq<Cell>, b: seq<Cell>)
    ensures Bands(a + b)[..|a|] == Bands(a)
  {
    forall j | 0 <= j < |a|
      ensures Bands(a + b)[j] == Bands(a)[j]
    {
      assert (a + b)[..j + 1] == a[..j + 1];
    }
  }

  /** Dates D1, D1, D2, D2, D1 are banded at the first, third and fifth rows' changes:
      banded, banded, plain, plain, banded. */
  lemma BandingExample()
    ensures Bands([Some("01/03/2024"), Some("01/03/2024"), Some("02/03/2024"), Some("02/03/2024"), Some("01/03/2024")])
      == [true, true, false, false, true]
  {
    var d := [Some("01/03/2024"), Some("01/03/2024"), Some("02/03/2024"), Some("02/03/2024"), Some("01/03/2024")];
    FirstRowBanded(d);
    NeighbourBands(d, 0);
    NeighbourBands(d, 1);
    NeighbourBands(d, 2);
    NeighbourBands(d, 3);
  }

  /** The fills after banding: fills are only ever added (`if band: cell.fill = fill`),
      so a row keeps the fill it had before. */
  function Refill(prior: seq<bool>, dates: seq<Cell>): (fs: seq<bool>)
    requires |prior| <= |dates|
    ensures |fs| == |dates|
  {
    seq(|dates|, j requires 0 <= j < |dates| => (j < |prior| && prior[j]) || Bands(dates)[j])
  }

  /** A sheet whose fills are exactly its bands keeps that property when rows are
      appended and it is re-banded. */
  lemma RefillExact(a: seq<Cell>, b: seq<Cell>)
    ensures Refill(Bands(a), a + b) == Bands(a + b)
  {
    BandsStable(a, b);
    var r := Refill(Bands(a), a + b);
    forall j | 0 <= j < |a + b|
      ensures r[j] == Bands(a + b)[j]
    {
      if j < |a| {
        assert Bands(a + b)[..|a|][j] == Bands(a + b)[j];
      }
    }
  }

  /** The workbook file: whether it exists, its header, its data rows and which data
      rows carry the band fill. */
  class Store {
    var present: bool
    var header: seq<Cell>
    var rows: seq<Row>
    var filled: seq<bool>

    ghost predicate Valid()
      reads this
    {
      |filled| == |rows|
    }

    /** No file at the path yet. */
    constructor Missing()
      ensures Valid() && !present && rows == [] && filled == []
    {
      present := false;
      header := [];
      rows := [];
      filled := [];
    }

    /** A file that is already there. */
    constructor Existing(header: seq<Cell>, rows: seq<Row>, filled: seq<bool>)
      requires |filled| == |rows|
      ensures Valid() && present && this.header == header && this.rows == rows && this.filled == filled
    {
      present := true;
      this.header := header;
      this.rows := rows;
      this.filled := filled;
    }

    /** `append_to_xlsx(xlsx_path, rows)`: open or create the workbook, append the
        records, re-band every data row and save. `saveOk` says whether `wb.save`
        succeeds; when it fails the file stays as it was. */
    method AppendToXlsx(records: seq<Assembler.Record>, saveOk: bool) returns (saved: bool)
      requires Valid()
      modifies this
      ensures Valid() && saved == saveOk
      ensures !saved ==> present == old(present) && header == old(header) && rows == old(rows) && filled == old(filled)
      ensures saved ==> present && header == (if old(present) then old(header) else HeaderRow)
      ensures saved ==> rows == (if old(present) then old(rows) else []) + RowsOf(records)
      ensures saved ==> filled == Refill(if old(present) then old(filled) else [], DateColumn(rows))
      ensures saved && old(!present || filled == Bands(DateColumn(rows))) ==> filled == Bands(DateColumn(rows))
    {
      var sheetHeader, sheet, fills;
      if !present {
        sheetHeader, sheet, fills := HeaderRow, [], [];
      } else {
        sheetHeader, sheet, fills := header, rows, filled;
      }
      var appended := AppendRows(sheet, records);
      var banded := BandRows(appended, fills);
      if !saveOk {
        return false;
      }
      if fills == Bands(DateColumn(sheet)) {
        DateColumnAppend(sheet, RowsOf(records));
        RefillExact(DateColumn(sheet), DateColumn(RowsOf(records)));
      }
      present, header, rows, filled := true, sheetHeader, appended, banded;
      return true;
    }
  }

  /** The first loop of `append_to_xlsx`: one `ws.append` per record, in order. */
  method AppendRows(sheet: seq<Row>, records: seq<Assembler.Record>) returns (result: seq<Row>)
    ensures result == sheet + RowsOf(records)
  {
    result := sheet;
    var k := 0;
    while k < |records|
      invariant 0 <= k <= |records|
      invariant result == sheet + RowsOf(records[..k])
    {
      assert records[..k + 1][..k] == records[..k];
      result := result + [RowOf(records[k])];
      k := k + 1;
    }
    assert records[..k] == records;
  }

  /** The banding loop of `append_to_xlsx` over all data rows: `prior` are the fills
      the rows already had (new rows have none), and a row is filled when `band` is
      set on reaching it. */
  method BandRows(sheet: seq<Row>, prior: seq<bool>) returns (fills: seq<bool>)
    requires |prior| <= |sheet|
    ensures fills == Refill(prior, DateColumn(sheet))
  {
    fills := prior + seq(|sheet| - |prior|, _ => false);
    var dates := DateColumn(sheet);
    var prevDate: Cell := None;
    var band := false;
    var i := 0;
    while i < |sheet|
      invariant 0 <= i <= |sheet| && |fills| == |sheet|
      invariant Scan(dates[..i]) == Scanned(prevDate, band)
      invariant forall j :: 0 <= j < i ==> fills[j] == Refill(prior, dates)[j]
      invariant forall j :: i <= j < |sheet| ==> fills[j] == (j < |prior| && prior[j])
    {
      assert dates[..i + 1][..i] == dates[..i];
      if sheet[i].date != prevDate {
        prevDate := sheet[i].date;
        band := !band;
      }
      assert Scan(dates[..i + 1]) == Scanned(prevDate, band);
      assert Bands(dates)[i] == band;
      assert Refill(prior, dates)[i] == ((i < |prior| && prior[i]) || band);
      if band {
        fills := fills[i := true];
      }
      i := i + 1;
    }
  }

  lemma DateColumnAppend(a: seq<Row>, b: seq<Row>)
    ensures DateColumn(a + b) == DateColumn(a) + DateColumn(b)
  {
  }
}
