/**
 * The listing harvest of both scrapers, on values. A run reads the search pages from a
 * start page to an end page. The Massachusetts scraper saves each new bill into the raw
 * directory at once, skips bills whose number the directory already holds, and stops
 * after a page that gave nothing new but skipped something. The final scraper keeps every
 * record of every page.
 *
 * The raw directory is a map from file name to the record stored there.
 */
module Harvest {
  import opened Wrappers
  import opened Strings
  import opened Bills
  import opened DedupKeys
  import opened Listing

  // ---------------------------------------------------------------------------
  // save_bill_data
  // ---------------------------------------------------------------------------

  /** The session `save_bill_data` reads from the general court. */
  function RawSession(r: BillRecord): string {
    SessionOf(r.generalCourt, UnknownSession)
  }

  /** `{session}_{bill_id}.json` under the raw directory. */
  function RawFileName(r: BillRecord): string {
    BillFileName(RawSession(r), r.number, JsonExt)
  }

  /** The dict after `save_bill_data` has set its `metadata`. */
  function WithMetadata(r: BillRecord): BillRecord {
    var session := RawSession(r);
    r.(metadata := Some(Metadata(session, StoredBillId(session, r.number), "1.0")))
  }

  /** The raw directory after `save_bill_data`: the file holds the dict with its metadata. */
  function SaveBill(store: map<string, BillRecord>, r: BillRecord): map<string, BillRecord> {
    store[RawFileName(r) := WithMetadata(r)]
  }

  /**
   * What saving stores: the record under its file name with every field kept and the
   * metadata set; the metadata's bill id is `MA_` and the file name without `.json`; and
   * the directory listing afterwards recognises the number as existing exactly when it
   * survives the file-name encoding.
   */
  lemma SaveBillStores(store: map<string, BillRecord>, r: BillRecord)
    ensures var s := SaveBill(store, r); var f := RawFileName(r);
      && s.Keys == store.Keys + {f}
      && s[f].metadata.Some?
      && s[f] == r.(metadata := s[f].metadata)
      && s[f].metadata.value.billId == "MA_" + f[..|f| - |JsonExt|]
      && s[f].metadata.value.dataVersion == "1.0"
    ensures r.number in ExistingBillIds(SaveBill(store, r).Keys) <==>
      r.number in ExistingBillIds(store.Keys) || IsDecodableNumber(r.number)
  {
    var session := RawSession(r);
    var f := RawFileName(r);
    assert f[..|f| - |JsonExt|] == session + "_" + EncodeNumber(r.number);
    SessionIsWord(r.generalCourt);
    RawRoundTrip(session, r.number);
    BillIdsAdd(store.Keys, f);
    assert ExistingBillIds({f}) == if RawFileNumber(f).Some? then {RawFileNumber(f).value} else {} by {
      BillIdsAdd({}, f);
      assert {} + {f} == {f};
    }
  }

  lemma Session194Of(r: BillRecord)
    requires r.generalCourt == Court194
    ensures RawSession(r) == "194th"
  {
    Session194(UnknownSession);
  }

  /** A bill of the 194th court is saved as `194th_<number>.json` with session `194th`. */
  lemma SessionNamed194(r: BillRecord)
    requires RawSession(r) == "194th"
    ensures RawFileName(r) == "194th_" + EncodeNumber(r.number) + ".json"
    ensures WithMetadata(r).metadata == Some(Metadata("194th", "MA_194th_" + EncodeNumber(r.number), "1.0"))
  {
    assert StoredBillId("194th", r.number) == "MA_194th_" + EncodeNumber(r.number);
  }

  // ---------------------------------------------------------------------------
  // One page of scripts/ma_bill_scrapper.py
  // ---------------------------------------------------------------------------

  /** The per-page counters, the page's saved bills and the raw directory. */
  datatype Tally = Tally(bills: seq<BillRecord>, newCount: nat, skipped: nat, errors: nat, store: map<string, BillRecord>)

  /** One row: an error if nothing is extracted, skipped if known, else saved and kept. */
  function RowStep(t: Tally, row: Row, skip: bool): Tally {
    match ExtractBasicInfo(row)
    case None => t.(errors := t.errors + 1)
    case Some(info) =>
      var r := FromInfo(info);
      if skip && !ShouldScrape(r.number, t.store.Keys) then t.(skipped := t.skipped + 1)
      else t.(bills := t.bills + [WithMetadata(r)], newCount := t.newCount + 1, store := SaveBill(t.store, r))
  }

  /** A read row whose number is known, when skipping, only counts as skipped. */
  lemma RowStepSkipped(t: Tally, row: Row, skip: bool, info: BasicInfo)
    requires ExtractBasicInfo(row) == Some(info)
    requires skip && !ShouldScrape(info.number, t.store.Keys)
    ensures RowStep(t, row, skip) == t.(skipped := t.skipped + 1)
  {
  }

  /** Any other read row is saved and kept. */
  lemma RowStepSaved(t: Tally, row: Row, skip: bool, info: BasicInfo)
    requires ExtractBasicInfo(row) == Some(info)
    requires !(skip && !ShouldScrape(info.number, t.store.Keys))
    ensures RowStep(t, row, skip) ==
      t.(bills := t.bills + [WithMetadata(FromInfo(info))], newCount := t.newCount + 1, store := SaveBill(t.store, FromInfo(info)))
  {
  }

  /** The rows of one page, in order, from zero counters. */
  function HarvestRows(store: map<string, BillRecord>, rows: seq<Row>, skip: bool): Tally
    decreases |rows|
  {
    if rows == [] then Tally([], 0, 0, 0, store)
    else RowStep(HarvestRows(store, rows[..|rows| - 1], skip), rows[|rows| - 1], skip)
  }

  /** The rows up to and including row `i` are those before it, then row `i`. */
  lemma HarvestRowsNext(store: map<string, BillRecord>, rows: seq<Row>, i: int, skip: bool)
    requires 0 <= i < |rows|
    ensures HarvestRows(store, rows[..i + 1], skip) == RowStep(HarvestRows(store, rows[..i], skip), rows[i], skip)
  {
    assert rows[..i + 1][..i] == rows[..i];
  }

  /** One row adds one to exactly one counter, and a new bill adds its own file. */
  lemma RowStepTally(t: Tally, row: Row, skip: bool)
    ensures var u := RowStep(t, row, skip);
      && u.newCount + u.skipped + u.errors == t.newCount + t.skipped + t.errors + 1
      && u.newCount - t.newCount == |u.bills| - |t.bills|
      && (!skip ==> u.skipped == t.skipped)
      && ((u.bills == t.bills && u.store == t.store)
          || (&& |u.bills| == |t.bills| + 1 && u.bills[..|t.bills|] == t.bills
              && u.store.Keys == t.store.Keys + {RawFileName(u.bills[|t.bills|])}))
  {
    match ExtractBasicInfo(row)
    case None =>
    case Some(info) =>
      var r := FromInfo(info);
      assert RawFileName(WithMetadata(r)) == RawFileName(r);
  }

  /** The raw file names of a list of bills. */
  function FileNames(bills: seq<BillRecord>): set<string>
    decreases |bills|
  {
    if bills == [] then {} else FileNames(bills[..|bills| - 1]) + {RawFileName(bills[|bills| - 1])}
  }

  lemma {:induction false} FileNamesMembers(bills: seq<BillRecord>, f: string)
    ensures f in FileNames(bills) <==> exists i :: 0 <= i < |bills| && RawFileName(bills[i]) == f
    decreases |bills|
  {
    if bills != [] {
      var init := bills[..|bills| - 1];
      FileNamesMembers(init, f);
      if exists i :: 0 <= i < |init| && RawFileName(init[i]) == f {
        var i :| 0 <= i < |init| && RawFileName(init[i]) == f;
        assert bills[i] == init[i];
      }
      if exists i :: 0 <= i < |bills| && RawFileName(bills[i]) == f {
        var i :| 0 <= i < |bills| && RawFileName(bills[i]) == f;
        if i < |init| {
          assert init[i] == bills[i];
        }
      }
    }
  }

  /** The counters after `n` rows from the directory `store0`. */
  ghost predicate Tallied(store0: map<string, BillRecord>, n: nat, skip: bool, t: Tally) {
    && t.newCount + t.skipped + t.errors == n
    && t.newCount == |t.bills|
    && (!skip ==> t.skipped == 0)
    && t.store.Keys == store0.Keys + FileNames(t.bills)
  }

  lemma RowStepTallied(store0: map<string, BillRecord>, n: nat, skip: bool, t: Tally, row: Row)
    requires Tallied(store0, n, skip, t)
    ensures Tallied(store0, n + 1, skip, RowStep(t, row, skip))
  {
    RowStepTally(t, row, skip);
    var u := RowStep(t, row, skip);
    if u.bills != t.bills {
      assert u.bills[..|u.bills| - 1] == t.bills;
    }
  }

  /**
   * Every row is counted exactly once, as new, skipped or error; the new ones are the
   * page's bills; without skipping nothing is skipped; and the directory gains exactly
   * the files of the page's bills.
   */
  lemma {:induction false} RowTally(store: map<string, BillRecord>, rows: seq<Row>, skip: bool)
    ensures var t := HarvestRows(store, rows, skip);
      && t.newCount + t.skipped + t.errors == |rows|
      && t.newCount == |t.bills|
      && (!skip ==> t.skipped == 0)
      && t.store.Keys == store.Keys + FileNames(t.bills)
    decreases |rows|
  {
    if rows != [] {
      RowTally(store, rows[..|rows| - 1], skip);
      RowStepTallied(store, |rows| - 1, skip, HarvestRows(store, rows[..|rows| - 1], skip), rows[|rows| - 1]);
    }
  }

  /**
   * The dedup guarantee, relative to the directory `store0` at the start: no kept bill's
   * number was already there; no decodable number is kept twice; every decodable kept
   * number is recognised in the current directory; and the directory only grows.
   */
  ghost predicate FreshAndDistinct(bills: seq<BillRecord>, store0: map<string, BillRecord>, store: map<string, BillRecord>) {
    && store0.Keys <= store.Keys
    && (forall i :: 0 <= i < |bills| ==> bills[i].number !in ExistingBillIds(store0.Keys))
    && (forall i, j :: 0 <= i < j < |bills| && IsDecodableNumber(bills[i].number) ==> bills[i].number != bills[j].number)
    && (forall i :: 0 <= i < |bills| && IsDecodableNumber(bills[i].number) ==> bills[i].number in ExistingBillIds(store.Keys))
  }

  lemma BillIdsMonotone(names: set<string>, more: set<string>)
    requires names <= more
    ensures ExistingBillIds(names) <= ExistingBillIds(more)
  {
  }

  /** Keeping a bill whose number the directory does not know, then saving it. */
  lemma FreshAppend(bills: seq<BillRecord>, store0: map<string, BillRecord>, store: map<string, BillRecord>, r: BillRecord)
    requires FreshAndDistinct(bills, store0, store)
    requires r.number !in ExistingBillIds(store.Keys)
    ensures FreshAndDistinct(bills + [WithMetadata(r)], store0, SaveBill(store, r))
  {
    var u := bills + [WithMetadata(r)];
    var s := SaveBill(store, r);
    var f := RawFileName(r);
    assert s.Keys == store.Keys + {f};
    BillIdsMonotone(store0.Keys, store.Keys);
    BillIdsMonotone(store.Keys, s.Keys);
    SessionIsWord(r.generalCourt);
    if IsDecodableNumber(r.number) {
      SavedNumberNotRescraped(store.Keys, RawSession(r), r.number);
    }
    forall i, j | 0 <= i < j < |u| && IsDecodableNumber(u[i].number)
      ensures u[i].number != u[j].number
    {
      if j == |bills| {
        assert u[i] == bills[i];
      } else {
        assert u[i] == bills[i] && u[j] == bills[j];
      }
    }
    forall i | 0 <= i < |u| && IsDecodableNumber(u[i].number) ensures u[i].number in ExistingBillIds(s.Keys) {
      if i < |bills| {
        assert u[i] == bills[i];
      }
    }
  }

  lemma RowStepFresh(t: Tally, row: Row, store0: map<string, BillRecord>)
    requires FreshAndDistinct(t.bills, store0, t.store)
    ensures var u := RowStep(t, row, true); FreshAndDistinct(u.bills, store0, u.store)
  {
    match ExtractBasicInfo(row)
    case None =>
    case Some(info) =>
      var r := FromInfo(info);
      if ShouldScrape(r.number, t.store.Keys) {
        FreshAppend(t.bills, store0, t.store, r);
      }
  }

  /** The guarantee over the rows of one page, starting from any directory. */
  lemma {:induction false} RowsFresh(store: map<string, BillRecord>, rows: seq<Row>)
    ensures var t := HarvestRows(store, rows, true); FreshAndDistinct(t.bills, store, t.store)
    decreases |rows|
  {
    if rows != [] {
      RowsFresh(store, rows[..|rows| - 1]);
      RowStepFresh(HarvestRows(store, rows[..|rows| - 1], true), rows[|rows| - 1], store);
    }
  }

  /** The guarantee composes across pages. */
  lemma FreshConcat(a: seq<BillRecord>, b: seq<BillRecord>, s0: map<string, BillRecord>, s1: map<string, BillRecord>, s2: map<string, BillRecord>)
    requires FreshAndDistinct(a, s0, s1) && FreshAndDistinct(b, s1, s2)
    ensures FreshAndDistinct(a + b, s0, s2)
  {
    BillIdsMonotone(s0.Keys, s1.Keys);
    BillIdsMonotone(s1.Keys, s2.Keys);
    var c := a + b;
    forall i | 0 <= i < |c| ensures c[i].number !in ExistingBillIds(s0.Keys) {
      if i >= |a| {
        assert c[i] == b[i - |a|];
      }
    }
    forall i, j | 0 <= i < j < |c| && IsDecodableNumber(c[i].number) ensures c[i].number != c[j].number {
      if j < |a| {
        assert c[i] == a[i] && c[j] == a[j];
      } else if i < |a| {
        assert c[i] == a[i] && c[j] == b[j - |a|];
      } else {
        assert c[i] == b[i - |a|] && c[j] == b[j - |a|];
      }
    }
    forall i | 0 <= i < |c| && IsDecodableNumber(c[i].number) ensures c[i].number in ExistingBillIds(s2.Keys) {
      if i >= |a| {
        assert c[i] == b[i - |a|];
      }
    }
  }

  // ---------------------------------------------------------------------------
  // The page loop of scripts/ma_bill_scrapper.py
  // ---------------------------------------------------------------------------

  /** The bills kept so far, the raw directory, and whether the loop has broken off. */
  datatype Harvested = Harvested(bills: seq<BillRecord>, store: map<string, BillRecord>, stopped: bool)

  /**
   * One page: a failed fetch or a page without a table is passed over; otherwise its
   * bills are kept, and the loop breaks off when nothing was new but something skipped.
   */
  function PageStep(h: Harvested, page: ListingFetch, skip: bool): Harvested {
    match page
    case Table(rows) =>
      var t := HarvestRows(h.store, rows, skip);
      Harvested(h.bills + t.bills, t.store, t.newCount == 0 && t.skipped > 0)
    case _ => h
  }

  /** The state after the pages `start .. p - 1`, reading page `q` as `listing(q)`. */
  function HarvestUpTo(store0: map<string, BillRecord>, listing: int -> ListingFetch, start: int, p: int, skip: bool): Harvested
    requires start <= p
    decreases p - start
  {
    if p == start then Harvested([], store0, false)
    else
      var h := HarvestUpTo(store0, listing, start, p - 1, skip);
      if h.stopped then h else PageStep(h, listing(p - 1), skip)
  }

  /** `range(start_page, end_page + 1)`: one past the last page, never before the first. */
  function PageLimit(start: int, end: int): (limit: int)
    ensures start <= limit
    ensures end >= start ==> limit == end + 1
  {
    if end + 1 < start then start else end + 1
  }

  /** `scrape_basic_bill_info(start_page, end_page, skip_existing)` on values. */
  function HarvestPages(store0: map<string, BillRecord>, listing: int -> ListingFetch, start: int, end: int, skip: bool): Harvested {
    HarvestUpTo(store0, listing, start, PageLimit(start, end), skip)
  }

  /** Once the loop breaks off, later pages change nothing. */
  lemma {:induction false} StopIsFinal(store0: map<string, BillRecord>, listing: int -> ListingFetch, start: int, p: int, q: int, skip: bool)
    requires start <= p <= q
    requires HarvestUpTo(store0, listing, start, p, skip).stopped
    ensures HarvestUpTo(store0, listing, start, q, skip) == HarvestUpTo(store0, listing, start, p, skip)
    decreases q - p
  {
    if q > p {
      StopIsFinal(store0, listing, start, p, q - 1, skip);
    }
  }

  /** Without skipping, every page in the range is read: the loop never breaks off. */
  lemma {:induction false} NoSkipNeverStops(store0: map<string, BillRecord>, listing: int -> ListingFetch, start: int, p: int)
    requires start <= p
    ensures !HarvestUpTo(store0, listing, start, p, false).stopped
    decreases p - start
  {
    if p > start {
      NoSkipNeverStops(store0, listing, start, p - 1);
      var h := HarvestUpTo(store0, listing, start, p - 1, false);
      match listing(p - 1)
      case Table(rows) => RowTally(h.store, rows, false);
      case _ =>
    }
  }

  /**
   * With skipping, the returned bills are new relative to the directory at the start, no
   * decodable number is returned twice, and the directory only grows.
   */
  lemma {:induction false} HarvestFresh(store0: map<string, BillRecord>, listing: int -> ListingFetch, start: int, p: int)
    requires start <= p
    ensures var h := HarvestUpTo(store0, listing, start, p, true); FreshAndDistinct(h.bills, store0, h.store)
    decreases p - start
  {
    if p > start {
      HarvestFresh(store0, listing, start, p - 1);
      var h := HarvestUpTo(store0, listing, start, p - 1, true);
      if !h.stopped {
        match listing(p - 1)
        case Table(rows) =>
          RowsFresh(h.store, rows);
          var t := HarvestRows(h.store, rows, true);
          FreshConcat(h.bills, t.bills, store0, h.store, t.store);
        case _ =>
      }
    }
  }

  /** What every kept bill looks like: a record saved with the 194th session's metadata. */
  ghost predicate Saved194(bills: seq<BillRecord>, store: map<string, BillRecord>) {
    forall i :: 0 <= i < |bills| ==>
      && bills[i].number != ""
      && bills[i].metadata == Some(Metadata("194th", "MA_194th_" + EncodeNumber(bills[i].number), "1.0"))
      && "194th_" + EncodeNumber(bills[i].number) + ".json" in store
  }

  /** Keeping and saving one more record of the 194th court. */
  lemma Saved194Append(bills: seq<BillRecord>, store: map<string, BillRecord>, r: BillRecord)
    requires Saved194(bills, store)
    requires RawSession(r) == "194th" && r.number != ""
    ensures Saved194(bills + [WithMetadata(r)], SaveBill(store, r))
  {
    SessionNamed194(r);
    var u := bills + [WithMetadata(r)];
    forall i | 0 <= i < |u| ensures "194th_" + EncodeNumber(u[i].number) + ".json" in SaveBill(store, r) {
      if i < |bills| {
        assert u[i] == bills[i];
      }
    }
  }

  lemma {:induction false} RowsSaved194(store: map<string, BillRecord>, rows: seq<Row>, skip: bool)
    ensures var t := HarvestRows(store, rows, skip); Saved194(t.bills, t.store)
    decreases |rows|
  {
    if rows != [] {
      RowsSaved194(store, rows[..|rows| - 1], skip);
      var init := HarvestRows(store, rows[..|rows| - 1], skip);
      match ExtractBasicInfo(rows[|rows| - 1])
      case None =>
      case Some(info) =>
        var r := FromInfo(info);
        if !(skip && !ShouldScrape(r.number, init.store.Keys)) {
          Session194Of(r);
          Saved194Append(init.bills, init.store, r);
        }
    }
  }

  /**
   * Every returned bill carries a non-empty number and metadata naming
   * session `194th`, and its file is in the raw directory at the end of the run.
   */
  lemma {:induction false} HarvestSaved194(store0: map<string, BillRecord>, listing: int -> ListingFetch, start: int, p: int, skip: bool)
    requires start <= p
    ensures var h := HarvestUpTo(store0, listing, start, p, skip); Saved194(h.bills, h.store)
    decreases p - start
  {
    if p > start {
      HarvestSaved194(store0, listing, start, p - 1, skip);
      var h := HarvestUpTo(store0, listing, start, p - 1, skip);
      if !h.stopped {
        match listing(p - 1)
        case Table(rows) =>
          RowsSaved194(h.store, rows, skip);
          RowTally(h.store, rows, skip);
          var t := HarvestRows(h.store, rows, skip);
          var c := h.bills + t.bills;
          forall i | 0 <= i < |c| ensures
            && c[i].number != ""
            && c[i].metadata == Some(Metadata("194th", "MA_194th_" + EncodeNumber(c[i].number), "1.0"))
            && "194th_" + EncodeNumber(c[i].number) + ".json" in t.store
          {
            if i < |h.bills| {
              assert c[i] == h.bills[i];
            } else {
              assert c[i] == t.bills[i - |h.bills|];
            }
          }
        case _ =>
      }
    }
  }

  // ---------------------------------------------------------------------------
  // Running the harvest again over the same pages
  // ---------------------------------------------------------------------------

  /** Some row of the list is one `extract_basic_info` reads. */
  predicate RowsReadable(rows: seq<Row>) {
    exists k :: 0 <= k < |rows| && ExtractBasicInfo(rows[k]).Some?
  }

  /** The page has a table with a row that `extract_basic_info` reads. */
  predicate HasReadableRow(page: ListingFetch) {
    page.Table? && RowsReadable(page.rows)
  }

  /** Every number read from the rows survives the trip through a file name. */
  predicate RowsDecodable(rows: seq<Row>) {
    forall k :: 0 <= k < |rows| && ExtractBasicInfo(rows[k]).Some? ==> IsDecodableNumber(ExtractBasicInfo(rows[k]).value.number)
  }

  predicate PageDecodable(page: ListingFetch) {
    page.Table? ==> RowsDecodable(page.rows)
  }

  /** Every number read from the rows is recognised in the directory. */
  ghost predicate RowsKnown(rows: seq<Row>, store: map<string, BillRecord>) {
    forall k :: 0 <= k < |rows| && ExtractBasicInfo(rows[k]).Some? ==>
      ExtractBasicInfo(rows[k]).value.number in ExistingBillIds(store.Keys)
  }

  ghost predicate PageKnown(page: ListingFetch, store: map<string, BillRecord>) {
    page.Table? ==> RowsKnown(page.rows, store)
  }

  lemma PageKnownMonotone(page: ListingFetch, s1: map<string, BillRecord>, s2: map<string, BillRecord>)
    requires s1.Keys <= s2.Keys && PageKnown(page, s1)
    ensures PageKnown(page, s2)
  {
    BillIdsMonotone(s1.Keys, s2.Keys);
  }

  /**
   * With skipping, after the rows of a page every decodable number they list is known
   * to the directory: it was there already (skipped) or has just been saved.
   */
  lemma {:induction false} RowsBecomeKnown(store: map<string, BillRecord>, rows: seq<Row>)
    requires RowsDecodable(rows)
    ensures RowsKnown(rows, HarvestRows(store, rows, true).store)
    ensures store.Keys <= HarvestRows(store, rows, true).store.Keys
    decreases |rows|
  {
    if rows != [] {
      var init := rows[..|rows| - 1];
      var last := rows[|rows| - 1];
      assert RowsDecodable(init) by {
        forall k | 0 <= k < |init| && ExtractBasicInfo(init[k]).Some?
          ensures IsDecodableNumber(ExtractBasicInfo(init[k]).value.number)
        {
          assert init[k] == rows[k];
        }
      }
      RowsBecomeKnown(store, init);
      var t0 := HarvestRows(store, init, true);
      var t := RowStep(t0, last, true);
      assert t == HarvestRows(store, rows, true);
      RowStepTally(t0, last, true);
      assert t0.store.Keys <= t.store.Keys;
      BillIdsMonotone(t0.store.Keys, t.store.Keys);
      match ExtractBasicInfo(last)
      case None =>
      case Some(info) =>
        var r := FromInfo(info);
        if ShouldScrape(r.number, t0.store.Keys) {
          assert IsDecodableNumber(info.number) by {
            assert ExtractBasicInfo(rows[|rows| - 1]).Some?;
          }
          SaveBillStores(t0.store, r);
        }
      forall k | 0 <= k < |rows| && ExtractBasicInfo(rows[k]).Some?
        ensures ExtractBasicInfo(rows[k]).value.number in ExistingBillIds(t.store.Keys)
      {
        if k < |init| {
          assert rows[k] == init[k];
        }
      }
    }
  }

  /**
   * Rows whose numbers the directory all knows are all skipped: nothing is kept or saved,
   * and something is skipped exactly when some row is readable.
   */
  lemma {:induction false} KnownRowsSkipped(store: map<string, BillRecord>, rows: seq<Row>)
    requires RowsKnown(rows, store)
    ensures var t := HarvestRows(store, rows, true);
      t.bills == [] && t.store == store && t.newCount == 0 && (t.skipped > 0 <==> RowsReadable(rows))
    decreases |rows|
  {
    if rows != [] {
      var init := rows[..|rows| - 1];
      assert forall k :: 0 <= k < |init| ==> init[k] == rows[k];
      KnownRowsSkipped(store, init);
      RowsReadableSnoc(rows);
    }
  }

  /** A list is readable when its front is, or its last row is. */
  lemma RowsReadableSnoc(rows: seq<Row>)
    requires rows != []
    ensures RowsReadable(rows) <==> RowsReadable(rows[..|rows| - 1]) || ExtractBasicInfo(rows[|rows| - 1]).Some?
  {
    var init := rows[..|rows| - 1];
    assert forall k :: 0 <= k < |init| ==> init[k] == rows[k];
  }

  /** Rows that `extract_basic_info` never reads make no skip. */
  lemma {:induction false} UnreadableRowsSkipNothing(store: map<string, BillRecord>, rows: seq<Row>, skip: bool)
    requires !RowsReadable(rows)
    ensures HarvestRows(store, rows, skip).skipped == 0
    decreases |rows|
  {
    if rows != [] {
      RowsReadableSnoc(rows);
      UnreadableRowsSkipNothing(store, rows[..|rows| - 1], skip);
    }
  }

  /** Page `q` of the listing has no readable row. */
  predicate UnreadableAt(listing: int -> ListingFetch, q: int) {
    !HasReadableRow(listing(q))
  }

  /** Page `q` of the listing lists only decodable numbers. */
  predicate DecodableAt(listing: int -> ListingFetch, q: int) {
    PageDecodable(listing(q))
  }

  /** If the run from `store0` reaches page `q`, the directory `store` knows that page. */
  ghost predicate KnownIfReached(store0: map<string, BillRecord>, listing: int -> ListingFetch, start: int, q: int, store: map<string, BillRecord>)
    requires start <= q
  {
    !HarvestUpTo(store0, listing, start, q, true).stopped ==> PageKnown(listing(q), store)
  }

  /** The loop cannot break off before it has seen a page with a readable row. */
  lemma {:induction false} StopNeedsReadablePage(store0: map<string, BillRecord>, listing: int -> ListingFetch, start: int, p: int, skip: bool)
    requires start <= p
    requires forall q :: start <= q < p ==> UnreadableAt(listing, q)
    ensures !HarvestUpTo(store0, listing, start, p, skip).stopped
    decreases p - start
  {
    if p > start {
      StopNeedsReadablePage(store0, listing, start, p - 1, skip);
      var h := HarvestUpTo(store0, listing, start, p - 1, skip);
      assert UnreadableAt(listing, p - 1);
      match listing(p - 1)
      case Table(rows) =>
        UnreadableRowsSkipNothing(h.store, rows, skip);
      case _ =>
    }
  }

  /**
   * Every page the first run reached before breaking off is known to the directory it
   * leaves behind, when the pages list only decodable numbers.
   */
  lemma {:induction false} ReachedPagesKnown(store0: map<string, BillRecord>, listing: int -> ListingFetch, start: int, p: int)
    requires start <= p
    requires forall q :: start <= q < p ==> DecodableAt(listing, q)
    ensures forall q :: start <= q < p ==> KnownIfReached(store0, listing, start, q, HarvestUpTo(store0, listing, start, p, true).store)
    decreases p - start
  {
    if p > start {
      ReachedPagesKnown(store0, listing, start, p - 1);
      var h := HarvestUpTo(store0, listing, start, p - 1, true);
      var h' := HarvestUpTo(store0, listing, start, p, true);
      if h.stopped {
        assert h' == h;
        assert KnownIfReached(store0, listing, start, p - 1, h'.store);
      } else {
        assert h' == PageStep(h, listing(p - 1), true);
        var page := listing(p - 1);
        assert DecodableAt(listing, p - 1);
        if page.Table? {
          RowsBecomeKnown(h.store, page.rows);
        }
        assert h.store.Keys <= h'.store.Keys && PageKnown(page, h'.store);
        assert KnownIfReached(store0, listing, start, p - 1, h'.store);
        forall q | start <= q < p - 1
          ensures KnownIfReached(store0, listing, start, q, h'.store)
        {
          assert KnownIfReached(store0, listing, start, q, h.store);
          if !HarvestUpTo(store0, listing, start, q, true).stopped {
            PageKnownMonotone(listing(q), h.store, h'.store);
          }
        }
      }
    }
  }

  /** The second run, page by page: nothing kept, nothing saved, only unreadable pages passed. */
  lemma {:induction false} RerunUpTo(store0: map<string, BillRecord>, listing: int -> ListingFetch, start: int, end: int, p: int)
    requires start <= p <= PageLimit(start, end)
    requires forall q :: start <= q < PageLimit(start, end) ==> DecodableAt(listing, q)
    ensures var store1 := HarvestPages(store0, listing, start, end, true).store;
      var h := HarvestUpTo(store1, listing, start, p, true);
      && h.bills == [] && h.store == store1
      && (!h.stopped ==> forall q :: start <= q < p ==> UnreadableAt(listing, q))
    decreases p - start
  {
    var limit := PageLimit(start, end);
    var store1 := HarvestPages(store0, listing, start, end, true).store;
    if p > start {
      RerunUpTo(store0, listing, start, end, p - 1);
      var h := HarvestUpTo(store1, listing, start, p - 1, true);
      var h' := HarvestUpTo(store1, listing, start, p, true);
      if h.stopped {
        assert h' == h;
      } else {
        assert h' == PageStep(h, listing(p - 1), true);
        StopNeedsReadablePage(store0, listing, start, p - 1, true);
        ReachedPagesKnown(store0, listing, start, limit);
        assert KnownIfReached(store0, listing, start, p - 1, store1);
        var page := listing(p - 1);
        if page.Table? {
          KnownRowsSkipped(store1, page.rows);
        }
        assert !h'.stopped ==> UnreadableAt(listing, p - 1);
      }
    }
  }

  /**
   * Harvest idempotence: a second run over the same pages, starting from the directory
   * the first run left, keeps and saves nothing, provided every number the pages list
   * survives the file-name encoding.
   */
  lemma SecondRunFindsNothing(store0: map<string, BillRecord>, listing: int -> ListingFetch, start: int, end: int)
    requires forall q :: start <= q < PageLimit(start, end) ==> DecodableAt(listing, q)
    ensures var first := HarvestPages(store0, listing, start, end, true);
      var second := HarvestPages(first.store, listing, start, end, true);
      second.bills == [] && second.store == first.store
  {
    RerunUpTo(store0, listing, start, end, PageLimit(start, end));
  }

  /** A listing row for the House docket `HD.1`. */
  const DocketRow: Row := Row(false, [Cell("1", None), Cell("HD.1", Some(Link("HD.1", "/Bills/194/HD1"))), Cell("", None), Cell("", None)])

  /**
   * Without the decodability condition the rerun is not idempotent: a docket number is
   * kept and saved again on every run, whatever the directory already holds.
   */
  lemma DocketRowSavedEveryRun(store: map<string, BillRecord>)
    ensures var t := HarvestRows(store, [DocketRow], true);
      |t.bills| == 1 && t.bills[0].number == "HD.1" && t.newCount == 1
  {
    var info := ExtractBasicInfo(DocketRow).value;
    assert info.number == "HD.1";
    DocketNumbersNeverExist(store.Keys, 'H', "1");
    assert ['H', 'D', '.'] + "1" == "HD.1";
    assert [DocketRow][..0] == [];
  }

  // ---------------------------------------------------------------------------
  // The page loop of scrapper.py
  // ---------------------------------------------------------------------------

  /** The records of the given rows, in order. */
  function FinalRowBills(rows: seq<Row>): seq<BillRecord>
    decreases |rows|
  {
    if rows == [] then []
    else
      FinalRowBills(rows[..|rows| - 1])
      + match ExtractBasicInfoFinal(rows[|rows| - 1]) case Some(info) => [FromInfo(info)] case None => []
  }

  /** The records of one page: the rows holding a `<td>`, each extracted in turn. */
  function FinalPageBills(page: ListingFetch): seq<BillRecord> {
    match page
    case Table(rows) => FinalRowBills(DataRows(rows))
    case _ => []
  }

  /** `FinalMABillScraper.scrape_basic_bill_info`: every page's records, in page order. */
  function FinalHarvest(listing: int -> ListingFetch, start: int, p: int): seq<BillRecord>
    requires start <= p
    decreases p - start
  {
    if p == start then [] else FinalHarvest(listing, start, p - 1) + FinalPageBills(listing(p - 1))
  }

  /** `n` copies of `s`, one after another. */
  function Copies(s: seq<BillRecord>, n: nat): (r: seq<BillRecord>)
    ensures forall x :: x in r <==> n > 0 && x in s
  {
    if n == 0 then [] else Copies(s, n - 1) + s
  }

  /** Every turn of the page loop from `start` up to `p` gets the response `page`. */
  predicate SameResponse(listing: int -> ListingFetch, page: ListingFetch, start: int, p: int) {
    forall q :: start <= q < p ==> listing(q) == page
  }

  /**
   * The request URL of `scrapper.py` names `Page=1` on every turn, so every turn gets the
   * same response: the harvest is that one page's records once per turn of the loop.
   */
  lemma {:induction false} SamePageEveryTurn(listing: int -> ListingFetch, page: ListingFetch, start: int, p: int)
    requires start <= p
    ensures SameResponse(listing, page, start, p) ==>
      FinalHarvest(listing, start, p) == Copies(FinalPageBills(page), p - start)
    decreases p - start
  {
    if p > start && SameResponse(listing, page, start, p) {
      assert SameResponse(listing, page, start, p - 1);
      SamePageEveryTurn(listing, page, start, p - 1);
      var bills := FinalPageBills(page);
      assert listing(p - 1) == page;
      assert FinalHarvest(listing, start, p) == FinalHarvest(listing, start, p - 1) + bills;
      assert Copies(bills, p - start) == Copies(bills, p - 1 - start) + bills;
    }
  }

  /** The run over pages 1 to 2 therefore lists every bill of the first page twice. */
  lemma FirstPageTwice(listing: int -> ListingFetch, page: ListingFetch)
    ensures (forall q :: listing(q) == page) ==>
      FinalHarvest(listing, 1, PageLimit(1, 2)) == FinalPageBills(page) + FinalPageBills(page)
  {
    if forall q :: listing(q) == page {
      assert SameResponse(listing, page, 1, 3);
      SamePageEveryTurn(listing, page, 1, 3);
      assert Copies(FinalPageBills(page), 1) == FinalPageBills(page);
    }
  }

  lemma {:induction false} FinalRowBillsAppend(a: seq<Row>, b: seq<Row>)
    ensures FinalRowBills(a + b) == FinalRowBills(a) + FinalRowBills(b)
    decreases |b|
  {
    if b != [] {
      var b0 := b[..|b| - 1];
      assert (a + b)[..|a + b| - 1] == a + b0;
      assert (a + b)[|a + b| - 1] == b[|b| - 1];
      FinalRowBillsAppend(a, b0);
    } else {
      assert a + b == a;
    }
  }

  /** The `<td>` filter loses nothing: the page gives the same records without it. */
  lemma {:induction false} DataRowFilterIsRedundant(rows: seq<Row>)
    ensures FinalRowBills(DataRows(rows)) == FinalRowBills(rows)
    decreases |rows|
  {
    if rows != [] {
      var head, tail := rows[0], rows[1..];
      DataRowFilterIsRedundant(tail);
      assert rows == [head] + tail;
      FinalRowBillsAppend([head], tail);
      assert FinalRowBills([head]) == match ExtractBasicInfoFinal(head) case Some(info) => [FromInfo(info)] case None => [] by {
        assert [head][..0] == [];
      }
      if IsDataRow(head) {
        assert DataRows(rows) == [head] + DataRows(tail);
        FinalRowBillsAppend([head], DataRows(tail));
      } else {
        assert DataRows(rows) == DataRows(tail);
        NonDataRowsYieldNothing(head);
      }
    }
  }

  /** The record was extracted from one of the rows. */
  ghost predicate FromRow(b: BillRecord, rows: seq<Row>) {
    exists k :: 0 <= k < |rows| && ExtractBasicInfoFinal(rows[k]).Some? && b == FromInfo(ExtractBasicInfoFinal(rows[k]).value)
  }

  /** Every record of the final scraper comes from a five-cell row's third-cell link. */
  lemma {:induction false} FinalBillsFromRows(rows: seq<Row>)
    ensures forall i :: 0 <= i < |FinalRowBills(rows)| ==> FromRow(FinalRowBills(rows)[i], rows)
    decreases |rows|
  {
    if rows != [] {
      var init := rows[..|rows| - 1];
      FinalBillsFromRows(init);
      var out := FinalRowBills(rows);
      forall i | 0 <= i < |out| ensures FromRow(out[i], rows) {
        if i < |FinalRowBills(init)| {
          assert FromRow(FinalRowBills(init)[i], init);
          var k :| 0 <= k < |init| && ExtractBasicInfoFinal(init[k]).Some? && FinalRowBills(init)[i] == FromInfo(ExtractBasicInfoFinal(init[k]).value);
          assert rows[k] == init[k];
          assert out[i] == FinalRowBills(init)[i];
        } else {
          var k := |rows| - 1;
          assert ExtractBasicInfoFinal(rows[k]).Some? && out[i] == FromInfo(ExtractBasicInfoFinal(rows[k]).value);
        }
      }
    }
  }
}
