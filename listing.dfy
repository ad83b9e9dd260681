/**
 * Listing rows of the bill search results and the two `extract_basic_info` variants:
 * the four-column layout of scripts/ma_bill_scrapper.py and the five-column layout of
 * scrapper.py.
 */
module Listing {
  import opened Wrappers
  import opened Bills
  import opened Documents

  /** The first `<a href>` of a cell: its stripped text and its `href`. */
  datatype Link = Link(text: string, href: string)

  /** A `<td>`: its stripped text and its first link with an `href`, if any. */
  datatype Cell = Cell(text: string, link: Option<Link>)

  /** A `<tr>`: whether it holds a `<th>`, and its `<td>` cells in order. */
  datatype Row = Row(hasHeaderCell: bool, cells: seq<Cell>)

  /** The search page for one page number. */
  datatype ListingFetch = PageFailed(message: string) | NoTable | Table(rows: seq<Row>)

  /** The general court the four-column scraper assigns to every bill it reads. */
  const Court194: string := "194th (2023-2024)"

  function LinkText(c: Cell): Option<string> {
    match c.link
    case Some(l) => Some(l.text)
    case None => None
  }

  /**
   * `extract_basic_info` of scripts/ma_bill_scrapper.py: no record for a header row, a
   * row of fewer than four cells, or a second cell without a link or with an empty link
   * text; otherwise the number and detail URL from that link, sponsor and title from the
   * links of the third and fourth cells, and the fixed general court.
   */
  function ExtractBasicInfo(row: Row): (r: Option<BasicInfo>)
    ensures r.None? <==>
      || row.hasHeaderCell
      || |row.cells| < 4
      || row.cells[1].link.None?
      || row.cells[1].link.value.text == ""
    ensures r.Some? ==>
      && r.value.number == row.cells[1].link.value.text
      && r.value.number != ""
      && r.value.detailUrl == BaseUrl + row.cells[1].link.value.href
      && r.value.generalCourt == Court194
      && r.value.sponsor == LinkText(row.cells[2])
      && r.value.title == LinkText(row.cells[3])
  {
    if row.hasHeaderCell || |row.cells| < 4 then None
    else
      match row.cells[1].link
      case None => None
      case Some(l) =>
        if l.text == "" then None
        else Some(BasicInfo(l.text, BaseUrl + l.href, Court194, LinkText(row.cells[2]), LinkText(row.cells[3])))
  }

  /**
   * `extract_basic_info` of scrapper.py: no record for a row of fewer than five cells or
   * a third cell without a link; otherwise the general court is the second cell's text,
   * the number and detail URL come from the third cell's link, even when its text is
   * empty, and sponsor and title from the links of the fourth and fifth cells.
   */
  function ExtractBasicInfoFinal(row: Row): (r: Option<BasicInfo>)
    ensures r.None? <==> |row.cells| < 5 || row.cells[2].link.None?
    ensures r.Some? ==>
      && r.value.generalCourt == row.cells[1].text
      && r.value.number == row.cells[2].link.value.text
      && r.value.detailUrl == BaseUrl + row.cells[2].link.value.href
      && r.value.sponsor == LinkText(row.cells[3])
      && r.value.title == LinkText(row.cells[4])
  {
    if |row.cells| < 5 then None
    else
      match row.cells[2].link
      case None => None
      case Some(l) =>
        Some(BasicInfo(l.text, BaseUrl + l.href, row.cells[1].text, LinkText(row.cells[3]), LinkText(row.cells[4])))
  }

  /** A row with at least one `<td>`: the rows scrapper.py hands to extraction. */
  predicate IsDataRow(row: Row) {
    |row.cells| > 0
  }

  /**
   * The rows of a table that hold a `<td>`, in order: every such row is kept, as often
   * as it occurs, and no other row is.
   */
  function DataRows(rows: seq<Row>): (r: seq<Row>)
    ensures |r| <= |rows|
    ensures forall i :: 0 <= i < |r| ==> IsDataRow(r[i])
    ensures forall row :: row in r <==> row in rows && IsDataRow(row)
    ensures forall row :: multiset(r)[row] == if IsDataRow(row) then multiset(rows)[row] else 0
  {
    if rows == [] then []
    else
      assert rows == [rows[0]] + rows[1..];
      if IsDataRow(rows[0]) then [rows[0]] + DataRows(rows[1..]) else DataRows(rows[1..])
  }

  /**
   * The filter keeps the table's order: filtering two runs of rows one after the other
   * gives the filtered first run followed by the filtered second.
   */
  lemma {:induction false} DataRowsAppend(a: seq<Row>, b: seq<Row>)
    ensures DataRows(a + b) == DataRows(a) + DataRows(b)
    decreases |a|
  {
    if a == [] {
      assert a + b == b;
    } else {
      assert (a + b)[1..] == a[1..] + b;
      DataRowsAppend(a[1..], b);
    }
  }

  /** A row without `<td>` never yields a record, so the `<td>` filter drops no bill. */
  lemma NonDataRowsYieldNothing(row: Row)
    requires !IsDataRow(row)
    ensures ExtractBasicInfoFinal(row).None? && ExtractBasicInfo(row).None?
  {
  }

  /**
   * A listing row that the four-column scraper reads back exactly: every record it
   * yields comes from a row of this shape.
   */
  function InfoRow(info: BasicInfo, href: string, first: string): Row {
    Row(false, [
      Cell(first, None),
      Cell(info.number, Some(Link(info.number, href))),
      Cell(info.sponsor.GetOr(""), if info.sponsor.Some? then Some(Link(info.sponsor.value, "")) else None),
      Cell(info.title.GetOr(""), if info.title.Some? then Some(Link(info.title.value, "")) else None)])
  }

  /** Inverse of extraction: a record with a non-empty number is read back from its row. */
  lemma InfoRowRoundTrip(info: BasicInfo, href: string, first: string)
    requires info.number != "" && info.detailUrl == BaseUrl + href && info.generalCourt == Court194
    ensures ExtractBasicInfo(InfoRow(info, href, first)) == Some(info)
  {
    var row := InfoRow(info, href, first);
    assert LinkText(row.cells[2]) == info.sponsor;
    assert LinkText(row.cells[3]) == info.title;
  }
}
