/**
 * `FinalMABillScraper` of scrapper.py, the earlier single-file scraper. It keeps no
 * record of earlier runs: it reads the listing pages, runs the text chain on a sample,
 * and writes the CSV and one text file per bill with substantial text into its
 * `bills_text` folder, which is its only state here.
 */
module FinalScraper {
  import opened Wrappers
  import opened Strings
  import opened Bills
  import opened DedupKeys
  import opened Listing
  import opened Harvest
  import opened Fallback
  import D = Documents
  import O = Output
  import PageReader
  import Reporting

  /** The text file of a bill in `bills_text`: the encoded number, no session. */
  function FinalTextFileName(r: BillRecord): string {
    EncodeNumber(r.number) + TextExt
  }

  /** The number of bills whose text the scrapper.py chain extracts successfully. */
  function FinalSuccessCount(fetch: string -> D.Fetch, bills: seq<Bill>): nat
    decreases |bills|
  {
    if bills == [] then 0
    else
      FinalSuccessCount(fetch, bills[..|bills| - 1])
      + (if IsSuccessSource(FinalTextOutcome(fetch, bills[|bills| - 1].detailUrl).source) then 1 else 0)
  }

  lemma FinalSuccessCountSnoc(fetch: string -> D.Fetch, bills: seq<Bill>, b: Bill)
    ensures FinalSuccessCount(fetch, bills + [b]) ==
      FinalSuccessCount(fetch, bills) + if IsSuccessSource(FinalTextOutcome(fetch, b.detailUrl).source) then 1 else 0
  {
    assert (bills + [b])[..|bills|] == bills;
  }

  /** At most one success per bill. */
  lemma {:induction false} FinalSuccessCountBound(fetch: string -> D.Fetch, bills: seq<Bill>)
    ensures FinalSuccessCount(fetch, bills) <= |bills|
    decreases |bills|
  {
    if bills != [] {
      FinalSuccessCountBound(fetch, bills[..|bills| - 1]);
    }
  }

  /**
   * Two bills with the same number get the same text file, whatever their sessions:
   * the later one's file replaces the earlier one's.
   */
  lemma SameNumberSameFile(r1: BillRecord, r2: BillRecord)
    requires r1.number == r2.number
    ensures FinalTextFileName(r1) == FinalTextFileName(r2)
  {
  }

  lemma FinalHarvestStep(listing: int -> ListingFetch, start: int, p: int)
    requires start <= p
    ensures listing(p).Table? ==>
      FinalHarvest(listing, start, p + 1) == FinalHarvest(listing, start, p) + FinalRowBills(DataRows(listing(p).rows))
    ensures !listing(p).Table? ==> FinalHarvest(listing, start, p + 1) == FinalHarvest(listing, start, p)
  {
    assert FinalHarvest(listing, start, p + 1) == FinalHarvest(listing, start, p) + FinalPageBills(listing(p));
  }

  /** The page loop's invariant: the bills so far hold the records of the pages read. */
  predicate HarvestedSoFar(records: seq<BillRecord>, listing: int -> ListingFetch, start: int, page: int)
    requires start <= page
  {
    records == FinalHarvest(listing, start, page)
  }

  class FinalMABillScraper {
    /** The `bills_text` folder: file name to the file's contents. */
    var textFiles: map<string, string>

    constructor (text: map<string, string>)
      ensures textFiles == text
    {
      textFiles := text;
    }

    /** The rows loop of one page: each `<td>` row's bill, when one can be read. */
    method ScrapeRows(rows: seq<Row>) returns (pageBills: seq<Bill>)
      ensures Snapshots(pageBills) == FinalRowBills(DataRows(rows))
      ensures fresh(pageBills)
      ensures DistinctBills(pageBills)
    {
      var dataRows := DataRows(rows);
      pageBills := [];
      var i := 0;
      while i < |dataRows|
        invariant 0 <= i <= |dataRows|
        invariant Snapshots(pageBills) == FinalRowBills(dataRows[..i])
        invariant fresh(pageBills)
        invariant DistinctBills(pageBills)
      {
        PrefixSnoc(dataRows, i);
        assert dataRows[..i + 1][..i] == dataRows[..i];
        var billData := ExtractBasicInfoFinal(dataRows[i]);
        if billData.Some? {
          var bill := new Bill(billData.value);
          SnapshotsAppend(pageBills, [bill]);
          assert Snapshots([bill]) == [bill.Snapshot()];
          DistinctBillsAppend(pageBills, [bill]);
          pageBills := pageBills + [bill];
        }
        i := i + 1;
      }
      assert dataRows[..i] == dataRows;
    }

    /** One turn of the page loop: the bills of page `page` appended, the list still without repeats. */
    method NextPage(listing: int -> ListingFetch, startPage: int, page: int, allBills: seq<Bill>)
      returns (grown: seq<Bill>)
      requires startPage <= page
      requires HarvestedSoFar(Snapshots(allBills), listing, startPage, page)
      requires DistinctBills(allBills)
      ensures HarvestedSoFar(Snapshots(grown), listing, startPage, page + 1)
      ensures DistinctBills(grown)
    {
      FinalHarvestStep(listing, startPage, page);
      grown := allBills;
      match listing(page)
      case Table(rows) =>
        var pageBills := ScrapeRows(rows);
        assert forall k :: 0 <= k < |pageBills| ==> pageBills[k] !in allBills;
        SnapshotsAppend(allBills, pageBills);
        DistinctBillsAppend(allBills, pageBills);
        grown := allBills + pageBills;
      case _ =>
    }

    /**
     * `scrape_basic_bill_info`: every page from the first to the last, inclusive; a page
     * that fails or has no table adds nothing.
     */
    method ScrapeBasicBillInfo(listing: int -> ListingFetch, startPage: int, endPage: int)
      returns (allBills: seq<Bill>)
      ensures Snapshots(allBills) == FinalHarvest(listing, startPage, PageLimit(startPage, endPage))
      ensures DistinctBills(allBills)
    {
      allBills := [];
      var limit := PageLimit(startPage, endPage);
      for page := startPage to limit
        invariant HarvestedSoFar(Snapshots(allBills), listing, startPage, page)
        invariant DistinctBills(allBills)
      {
        allBills := NextPage(listing, startPage, page, allBills);
      }
    }

    /** `get_bill_text_final`: the chain of scrapper.py, writing its keys into the bill. */
    method GetBillTextFinal(billInfo: Bill, fetch: string -> D.Fetch) returns (result: Bill)
      modifies billInfo
      ensures result == billInfo
      ensures billInfo.Snapshot() == WithText(old(billInfo.Snapshot()), FinalTextOutcome(fetch, billInfo.detailUrl))
    {
      result := billInfo;
      match fetch(billInfo.detailUrl)
      case FetchFailed(message) =>
        WriteText(billInfo, TextResult(ErrorPrefix + message, Error, None, None));
      case Fetched(soup) =>
        ghost var outcome := FinalTextOutcome(fetch, billInfo.detailUrl);
        var viewTextUrl := PageReader.FindTextLink(soup, ViewTextLabel);
        if viewTextUrl.Some? && viewTextUrl.value != "" {
          var text := PageReader.GetTextFromUrl(fetch, viewTextUrl.value);
          if |text| > MinTextLength {
            WriteText(billInfo, TextResult(text, ViewText, viewTextUrl, None));
            return;
          }
        }
        assert !LinkGivesText(fetch, viewTextUrl);
        var printUrl := PageReader.FindTextLink(soup, PrintPreviewLabel);
        if printUrl.Some? && printUrl.value != "" {
          var text := PageReader.GetTextFromUrl(fetch, printUrl.value);
          if |text| > MinTextLength {
            WriteText(billInfo, TextResult(text, PrintPreview, printUrl, None));
            return;
          }
        }
        assert !LinkGivesText(fetch, printUrl);
        assert outcome == FinalTailOutcome(soup);
        var pdfUrl := PageReader.FindTextLink(soup, PdfLabel);
        if pdfUrl.Some? && pdfUrl.value != "" {
          WriteText(billInfo, TextResult(PdfPrefix + pdfUrl.value, Pdf, pdfUrl, None));
          return;
        }
        var directText := PageReader.ExtractDirectText(soup);
        if |directText| > MinTextLength {
          WriteText(billInfo, TextResult(directText, DirectPage, None, None));
          return;
        }
        WriteText(billInfo, TextResult(FailedText, Failed, None, None));
    }

    /**
     * `scrape_with_text`: one result per bill of `bills[:sample_size]`, in order, each
     * with the chain's keys written into it, and the number of successes.
     */
    method ScrapeWithText(bills: seq<Bill>, sampleSize: Option<int>, fetch: string -> D.Fetch)
      returns (results: seq<Bill>, successful: nat)
      modifies bills
      ensures results == Sample(bills, sampleSize)
      ensures successful == FinalSuccessCount(fetch, results)
      ensures forall b :: b in bills ==>
        b.Snapshot() == if b in results then WithText(old(b.Snapshot()), FinalTextOutcome(fetch, b.detailUrl)) else old(b.Snapshot())
    {
      var sample := Sample(bills, sampleSize);
      assert forall b :: b in sample ==> b in bills by {
        forall b | b in sample ensures b in bills {
          var k :| 0 <= k < |sample| && sample[k] == b;
          assert bills[k] == b;
        }
      }
      results, successful := ProcessBills(sample, fetch);
    }

    /** The loop of `scrape_with_text`: the chain on each bill in order, counting successes. */
    method ProcessBills(sample: seq<Bill>, fetch: string -> D.Fetch) returns (results: seq<Bill>, successful: nat)
      modifies set b | b in sample
      ensures results == sample
      ensures successful == FinalSuccessCount(fetch, results)
      ensures forall b :: b in sample ==>
        b.Snapshot() == WithText(old(b.Snapshot()), FinalTextOutcome(fetch, b.detailUrl))
    {
      results := [];
      successful := 0;
      var i := 0;
      while i < |sample|
        invariant 0 <= i <= |sample|
        invariant results == sample[..i]
        invariant successful == FinalSuccessCount(fetch, results)
        invariant forall b :: b in sample ==>
          b.Snapshot() == if b in results then WithText(old(b.Snapshot()), FinalTextOutcome(fetch, b.detailUrl)) else old(b.Snapshot())
      {
        var bill := sample[i];
        PrefixSnoc(sample, i);
        label Before:
        var billWithText := GetBillTextFinal(bill, fetch);
        forall b | b in sample
          ensures b.Snapshot() ==
            if b in results + [bill] then WithText(old(b.Snapshot()), FinalTextOutcome(fetch, b.detailUrl)) else old(b.Snapshot())
        {
          if b == bill {
            WithTextIdempotent(old(b.Snapshot()), FinalTextOutcome(fetch, b.detailUrl));
          } else {
            assert b.Snapshot() == old@Before(b.Snapshot());
          }
        }
        FinalSuccessCountSnoc(fetch, results, bill);
        assert billWithText.textSource == Some(FinalTextOutcome(fetch, bill.detailUrl).source);
        results := results + [billWithText];
        if billWithText.textSource.Some? && IsSuccessSource(billWithText.textSource.value) {
          successful := successful + 1;
        }
        i := i + 1;
      }
      assert sample[..i] == sample;
    }

    /**
     * `save_results`: nothing for an empty list; otherwise the CSV's columns in their
     * final order, a text file in `bills_text` for each bill with substantial text, and
     * the summary. The summary's listing raises `KeyError` (`summaryRaises`) after the
     * files are written.
     */
    method SaveResults(bills: seq<Bill>)
      returns (columns: Option<seq<string>>, sources: seq<O.SourceCount>, substantial: nat, summaryRaises: bool)
      modifies this
      ensures bills == [] ==> columns.None? && sources == [] && substantial == 0 && !summaryRaises && textFiles == old(textFiles)
      ensures bills != [] ==> columns == Some(O.ColumnOrder(O.FrameColumns(O.FinalKeyLists(old(Snapshots(bills))))))
      ensures bills != [] ==> textFiles == O.WriteTextFiles(old(textFiles), old(Snapshots(bills)), FinalTextFileName)
      ensures bills != [] ==> sources == O.SourceCounts(old(Snapshots(bills))) && substantial == |O.SelectTextBills(old(Snapshots(bills)))|
      ensures bills != [] ==> summaryRaises == O.ListingRaises(old(Snapshots(bills)))
    {
      if bills == [] {
        return None, [], 0, false;
      }
      var records := Snapshots(bills);
      columns := Some(O.ColumnOrder(O.FrameColumns(O.FinalKeyLists(records))));
      var written := Reporting.WriteTextFiles(textFiles, records, FinalTextFileName);
      sources, substantial, summaryRaises := Reporting.PrintSummary(records);
      textFiles := written;
    }
  }
}
