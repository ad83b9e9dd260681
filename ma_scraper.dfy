/**
 * `MABillScraper` of scripts/ma_bill_scrapper.py. The scraper's state is its two data
 * directories: the raw directory, one JSON file per saved bill, and the text directory,
 * one text file per bill with substantial text. Both are maps from file name to content.
 * Web pages come in as functions from page number or URL to the parsed page.
 */
module MaScraper {
  import opened Wrappers
  import opened Strings
  import opened Bills
  import opened DedupKeys
  import opened Listing
  import opened Harvest
  import opened Fallback
  import D = Documents
  import O = Output
  import PageReader
  import Reporting

  /** The text file of a bill: `{session}_{number}.txt`, session `unknown` by default. */
  function TextFileName(r: BillRecord): string {
    BillFileName(SessionOf(r.generalCourt, UnknownTextSession), r.number, TextExt)
  }

  /** The bills of `sample` whose encoded number has no text file yet, in order. */
  function WithoutText(sample: seq<Bill>, textIds: set<string>): seq<Bill>
    decreases |sample|
  {
    if sample == [] then []
    else
      WithoutText(sample[..|sample| - 1], textIds)
      + (if EncodeNumber(sample[|sample| - 1].number) !in textIds then [sample[|sample| - 1]] else [])
  }

  /** `bills_to_process` of `scrape_with_text`. */
  function ToProcess(bills: seq<Bill>, sampleSize: Option<int>, skip: bool, textIds: set<string>): seq<Bill> {
    if skip then WithoutText(Sample(bills, sampleSize), textIds) else Sample(bills, sampleSize)
  }

  /** The number of bills whose text the chain extracts successfully. */
  function SuccessCount(fetch: string -> D.Fetch, bills: seq<Bill>): nat
    decreases |bills|
  {
    if bills == [] then 0
    else
      SuccessCount(fetch, bills[..|bills| - 1])
      + (if IsSuccessSource(TextOutcome(fetch, bills[|bills| - 1].detailUrl).source) then 1 else 0)
  }

  /** One more processed bill adds one to the count exactly when its chain succeeds. */
  lemma SuccessCountSnoc(fetch: string -> D.Fetch, bills: seq<Bill>, b: Bill)
    ensures SuccessCount(fetch, bills + [b]) ==
      SuccessCount(fetch, bills) + if IsSuccessSource(TextOutcome(fetch, b.detailUrl).source) then 1 else 0
  {
    assert (bills + [b])[..|bills|] == bills;
  }

  /**
   * Which bills are processed: those of the sample, and with skipping only those whose
   * encoded number is not among the text ids.
   */
  lemma {:induction false} WithoutTextMembers(sample: seq<Bill>, textIds: set<string>, b: Bill)
    ensures b in WithoutText(sample, textIds) <==> b in sample && EncodeNumber(b.number) !in textIds
    decreases |sample|
  {
    if sample != [] {
      var init := sample[..|sample| - 1];
      WithoutTextMembers(init, textIds, b);
      assert sample == init + [sample[|sample| - 1]];
    }
  }

  lemma ToProcessMembers(bills: seq<Bill>, sampleSize: Option<int>, skip: bool, textIds: set<string>, b: Bill)
    ensures b in ToProcess(bills, sampleSize, skip, textIds) <==>
      b in Sample(bills, sampleSize) && (skip ==> EncodeNumber(b.number) !in textIds)
  {
    if skip {
      WithoutTextMembers(Sample(bills, sampleSize), textIds, b);
    }
  }

  lemma TextIdsMonotone(names: set<string>, more: set<string>)
    requires names <= more
    ensures ExistingTextIds(names) <= ExistingTextIds(more)
  {
  }

  /**
   * Across runs: once `save_results` has written a bill's text file, the next
   * `get_existing_text_files` lists the bill's encoded number — so the bill is skipped —
   * whenever that number fits `[HS][D_]?\d+`.
   */
  lemma TextSavedThenSkipped(store: map<string, string>, rs: seq<BillRecord>, r: BillRecord)
    requires r in rs && O.HasSubstantialText(r)
    requires IsIdShape(EncodeNumber(r.number))
    ensures EncodeNumber(r.number) in ExistingTextIds(O.WriteTextFiles(store, rs, TextFileName).Keys)
  {
    O.SelectTextBillsMembers(rs, r);
    O.WrittenNames(store, rs, TextFileName);
    var f := TextFileName(r);
    var keys := O.WriteTextFiles(store, rs, TextFileName).Keys;
    assert f in keys;
    var session := SessionOf(r.generalCourt, UnknownTextSession);
    SessionIsWord(r.generalCourt);
    TextRoundTrip(session, r.number);
    TextIdsMonotone({f}, keys);
  }

  /** What the rows loop did with one row. */
  datatype RowOutcome = Saved(bill: Bill) | Skipped | Unreadable

  class MABillScraper {
    /** The raw directory: file name to the saved bill. */
    var rawFiles: map<string, BillRecord>
    /** The text directory: file name to the file's contents. */
    var textFiles: map<string, string>

    constructor (raw: map<string, BillRecord>, text: map<string, string>)
      ensures rawFiles == raw && textFiles == text
    {
      rawFiles := raw;
      textFiles := text;
    }

    /** `get_existing_bill_ids`: decode each listed `.json` name that fits the pattern. */
    method GetExistingBillIds() returns (existingIds: set<string>)
      ensures existingIds == ExistingBillIds(rawFiles.Keys)
    {
      existingIds := {};
      var pending := rawFiles.Keys;
      ghost var seen: set<string> := {};
      while pending != {}
        invariant seen + pending == rawFiles.Keys && seen !! pending
        invariant existingIds == ExistingBillIds(seen)
        decreases |pending|
      {
        var filename :| filename in pending;
        BillIdsAdd(seen, filename);
        MoveSeen(seen, pending, filename);
        if EndsWith(filename, JsonExt) {
          match MatchBillFile(filename, JsonExt) {
            case Some(billNum) =>
              assert RawFileNumber(filename) == Some(DecodeId(billNum));
              existingIds := existingIds + {DecodeId(billNum)};
            case None =>
              assert RawFileNumber(filename).None?;
          }
        } else {
          assert RawFileNumber(filename).None?;
        }
        pending := pending - {filename};
        seen := seen + {filename};
      }
    }

    /** `should_scrape_bill`: the number is not among the existing ids. */
    method ShouldScrapeBill(billData: Bill) returns (r: bool)
      ensures r == ShouldScrape(billData.number, rawFiles.Keys)
    {
      var existingIds := GetExistingBillIds();
      r := billData.number !in existingIds;
    }

    /** `get_existing_text_files`: the id of each listed `.txt` name that fits the pattern. */
    method GetExistingTextFiles() returns (existingText: set<string>)
      ensures existingText == ExistingTextIds(textFiles.Keys)
    {
      existingText := {};
      var pending := textFiles.Keys;
      ghost var seen: set<string> := {};
      while pending != {}
        invariant seen + pending == textFiles.Keys && seen !! pending
        invariant existingText == ExistingTextIds(seen)
        decreases |pending|
      {
        var filename :| filename in pending;
        TextIdsAdd(seen, filename);
        MoveSeen(seen, pending, filename);
        if EndsWith(filename, TextExt) {
          match MatchBillFile(filename, TextExt)
          case Some(billId) =>
            existingText := existingText + {billId};
          case None =>
        }
        pending := pending - {filename};
        seen := seen + {filename};
      }
    }

    /** `save_bill_data`: set the metadata on the bill, then write it to its file. */
    method SaveBillData(billData: Bill) returns (filename: string)
      modifies this, billData
      ensures filename == RawFileName(old(billData.Snapshot()))
      ensures billData.Snapshot() == WithMetadata(old(billData.Snapshot()))
      ensures rawFiles == SaveBill(old(rawFiles), old(billData.Snapshot()))
      ensures textFiles == old(textFiles)
    {
      var session := SessionOf(billData.generalCourt, UnknownSession);
      var billId := EncodeNumber(billData.number);
      filename := session + "_" + billId + JsonExt;
      billData.metadata := Some(Metadata(session, "MA_" + session + "_" + billId, "1.0"));
      rawFiles := rawFiles[filename := billData.Snapshot()];
    }

    /** A row that was read: skipped when skipping and its number is known, else saved. */
    method ScrapeInfo(info: BasicInfo, skipExisting: bool, ghost page: seq<Bill>, ghost earlier: seq<Bill>)
      returns (outcome: RowOutcome)
      modifies this
      ensures textFiles == old(textFiles)
      ensures Snapshots(page) == old(Snapshots(page)) && Snapshots(earlier) == old(Snapshots(earlier))
      ensures !outcome.Unreadable?
      ensures outcome.Skipped? <==> skipExisting && !ShouldScrape(info.number, old(rawFiles).Keys)
      ensures outcome.Skipped? ==> rawFiles == old(rawFiles)
      ensures outcome.Saved? ==> outcome.bill !in page && outcome.bill !in earlier
      ensures outcome.Saved? ==> outcome.bill.Snapshot() == WithMetadata(FromInfo(info))
      ensures outcome.Saved? ==> rawFiles == SaveBill(old(rawFiles), FromInfo(info))
    {
      var bill := new Bill(info);
      var proceed := true;
      if skipExisting {
        proceed := ShouldScrapeBill(bill);
      }
      if !proceed {
        return Skipped;
      }
      var filename := SaveBillData(bill);
      outcome := Saved(bill);
    }

    /**
     * The body of the rows loop of `scrape_basic_bill_info`: extract the row (an
     * unreadable row is an error), skip a bill whose number is known when skipping,
     * else save it; the outcome is added to the page's bills and counters. The bills
     * collected on earlier pages, `earlier`, are left as they were.
     */
    method CountRow(row: Row, skipExisting: bool, pageBills: seq<Bill>, newCount: nat, skippedCount: nat, errorCount: nat,
                    ghost earlier: seq<Bill>)
      returns (pageBills': seq<Bill>, newCount': nat, skippedCount': nat, errorCount': nat)
      requires DistinctBills(pageBills)
      requires forall k :: 0 <= k < |pageBills| ==> pageBills[k] !in earlier
      modifies this
      ensures RowStep(old(Tally(Snapshots(pageBills), newCount, skippedCount, errorCount, rawFiles)), row, skipExisting) ==
        Tally(Snapshots(pageBills'), newCount', skippedCount', errorCount', rawFiles)
      ensures textFiles == old(textFiles)
      ensures Snapshots(earlier) == old(Snapshots(earlier))
      ensures forall k :: 0 <= k < |pageBills'| ==> pageBills'[k] !in earlier
      ensures DistinctBills(pageBills')
    {
      ghost var t := Tally(Snapshots(pageBills), newCount, skippedCount, errorCount, rawFiles);
      pageBills', newCount', skippedCount', errorCount' := pageBills, newCount, skippedCount, errorCount;
      var billData := ExtractBasicInfo(row);
      if billData.None? {
        errorCount' := errorCount + 1;
        return;
      }
      var outcome := ScrapeInfo(billData.value, skipExisting, pageBills, earlier);
      match outcome {
        case Skipped =>
          RowStepSkipped(t, row, skipExisting, billData.value);
          skippedCount' := skippedCount + 1;
        case Saved(bill) =>
          RowStepSaved(t, row, skipExisting, billData.value);
          SnapshotsAppend(pageBills, [bill]);
          assert Snapshots([bill]) == [bill.Snapshot()];
          DistinctBillsAppend(pageBills, [bill]);
          pageBills' := pageBills + [bill];
          newCount' := newCount + 1;
      }
    }

    /** The rows loop of one page, with the page's counters. */
    method ScrapePage(rows: seq<Row>, skipExisting: bool, ghost earlier: seq<Bill>)
      returns (pageBills: seq<Bill>, newCount: nat, skippedCount: nat, errorCount: nat)
      modifies this
      ensures HarvestRows(old(rawFiles), rows, skipExisting) ==
        Tally(Snapshots(pageBills), newCount, skippedCount, errorCount, rawFiles)
      ensures textFiles == old(textFiles)
      ensures Snapshots(earlier) == old(Snapshots(earlier))
      ensures forall k :: 0 <= k < |pageBills| ==> pageBills[k] !in earlier
      ensures DistinctBills(pageBills)
    {
      pageBills, newCount, skippedCount, errorCount := [], 0, 0, 0;
      var i := 0;
      while i < |rows|
        invariant 0 <= i <= |rows|
        invariant HarvestRows(old(rawFiles), rows[..i], skipExisting) ==
          Tally(Snapshots(pageBills), newCount, skippedCount, errorCount, rawFiles)
        invariant textFiles == old(textFiles)
        invariant Snapshots(earlier) == old(Snapshots(earlier))
        invariant forall k :: 0 <= k < |pageBills| ==> pageBills[k] !in earlier
        invariant DistinctBills(pageBills)
      {
        HarvestRowsNext(old(rawFiles), rows, i, skipExisting);
        pageBills, newCount, skippedCount, errorCount :=
          CountRow(rows[i], skipExisting, pageBills, newCount, skippedCount, errorCount, earlier);
        i := i + 1;
      }
      assert rows[..|rows|] == rows;
    }

    /**
     * `scrape_basic_bill_info`: read the pages in order, passing over failed pages and
     * pages without a table, and break off after a page with nothing new but something
     * skipped.
     */
    method ScrapeBasicBillInfo(listing: int -> ListingFetch, startPage: int, endPage: int, skipExisting: bool)
      returns (allBills: seq<Bill>)
      modifies this
      ensures Snapshots(allBills) == HarvestPages(old(rawFiles), listing, startPage, endPage, skipExisting).bills
      ensures rawFiles == HarvestPages(old(rawFiles), listing, startPage, endPage, skipExisting).store
      ensures textFiles == old(textFiles)
      ensures DistinctBills(allBills)
    {
      allBills := [];
      var limit := PageLimit(startPage, endPage);
      var page := startPage;
      var stopped := false;
      while page < limit && !stopped
        invariant startPage <= page <= limit
        invariant HarvestUpTo(old(rawFiles), listing, startPage, page, skipExisting) ==
          Harvested(Snapshots(allBills), rawFiles, stopped)
        invariant textFiles == old(textFiles)
        invariant DistinctBills(allBills)
        decreases limit - page
      {
        match listing(page) {
          case Table(rows) =>
            var pageBills, newCount, skippedCount, errorCount := ScrapePage(rows, skipExisting, allBills);
            SnapshotsAppend(allBills, pageBills);
            DistinctBillsAppend(allBills, pageBills);
            allBills := allBills + pageBills;
            stopped := newCount == 0 && skippedCount > 0;
          case NoTable =>
          case PageFailed(_) =>
        }
        page := page + 1;
      }
      if stopped {
        StopIsFinal(old(rawFiles), listing, startPage, page, limit, skipExisting);
      }
    }

    /** `get_bill_text_final`: the fallback chain, writing its keys into the bill. */
    method GetBillTextFinal(billInfo: Bill, fetch: string -> D.Fetch) returns (result: Bill)
      modifies billInfo
      ensures result == billInfo
      ensures billInfo.Snapshot() == WithText(old(billInfo.Snapshot()), TextOutcome(fetch, billInfo.detailUrl))
    {
      result := billInfo;
      match fetch(billInfo.detailUrl)
      case FetchFailed(message) =>
        WriteText(billInfo, TextResult(ErrorPrefix + message, Error, None, Some(0)));
      case Fetched(soup) =>
        ghost var outcome := TextOutcome(fetch, billInfo.detailUrl);
        var viewTextUrl := PageReader.FindTextLink(soup, ViewTextLabel);
        if viewTextUrl.Some? && viewTextUrl.value != "" {
          var text := PageReader.GetTextFromUrl(fetch, viewTextUrl.value);
          if |text| > MinTextLength {
            WriteText(billInfo, TextResult(text, ViewText, viewTextUrl, Some(|text|)));
            return;
          }
        }
        assert !LinkGivesText(fetch, viewTextUrl);
        var printUrl := PageReader.FindTextLink(soup, PrintPreviewLabel);
        if printUrl.Some? && printUrl.value != "" {
          var text := PageReader.GetTextFromUrl(fetch, printUrl.value);
          if |text| > MinTextLength {
            WriteText(billInfo, TextResult(text, PrintPreview, printUrl, Some(|text|)));
            return;
          }
        }
        assert !LinkGivesText(fetch, printUrl);
        assert outcome == TailOutcome(soup, billInfo.detailUrl);
        var pdfUrl := PageReader.FindTextLink(soup, PdfLabel);
        if pdfUrl.Some? && pdfUrl.value != "" {
          WriteText(billInfo, TextResult(PdfPrefix + pdfUrl.value, Pdf, pdfUrl, Some(0)));
          return;
        }
        var directText := PageReader.ExtractDirectText(soup);
        if |directText| > MinTextLength {
          WriteText(billInfo, TextResult(directText, DirectPage, Some(billInfo.detailUrl), Some(|directText|)));
          return;
        }
        WriteText(billInfo, TextResult(FailedText, Failed, None, Some(0)));
    }

    /** The skipping loop of `scrape_with_text`: keep the bills without a text file. */
    method DropExistingText(sample: seq<Bill>, existingTextFiles: set<string>) returns (billsToProcess: seq<Bill>)
      ensures billsToProcess == WithoutText(sample, existingTextFiles)
    {
      billsToProcess := [];
      var i := 0;
      while i < |sample|
        invariant 0 <= i <= |sample|
        invariant billsToProcess == WithoutText(sample[..i], existingTextFiles)
      {
        assert sample[..i + 1][..i] == sample[..i];
        var bill := sample[i];
        var billId := EncodeNumber(bill.number);
        if billId !in existingTextFiles {
          billsToProcess := billsToProcess + [bill];
        }
        i := i + 1;
      }
      assert sample[..i] == sample;
    }

    /**
     * The text loop of `scrape_with_text`: run the chain on each bill in order, keep
     * each, and count the successes. A bill listed twice gets the same keys again.
     */
    method ProcessBills(billsToProcess: seq<Bill>, fetch: string -> D.Fetch) returns (results: seq<Bill>, successful: nat)
      modifies set b | b in billsToProcess
      ensures results == billsToProcess
      ensures successful == SuccessCount(fetch, results)
      ensures forall b :: b in billsToProcess ==>
        b.Snapshot() == WithText(old(b.Snapshot()), TextOutcome(fetch, b.detailUrl))
    {
      results := [];
      successful := 0;
      var i := 0;
      while i < |billsToProcess|
        invariant 0 <= i <= |billsToProcess|
        invariant results == billsToProcess[..i]
        invariant successful == SuccessCount(fetch, results)
        invariant forall b :: b in billsToProcess ==>
          b.Snapshot() == if b in results then WithText(old(b.Snapshot()), TextOutcome(fetch, b.detailUrl)) else old(b.Snapshot())
      {
        var bill := billsToProcess[i];
        PrefixSnoc(billsToProcess, i);
        label Before:
        var billWithText := GetBillTextFinal(bill, fetch);
        forall b | b in billsToProcess
          ensures b.Snapshot() ==
            if b in results + [bill] then WithText(old(b.Snapshot()), TextOutcome(fetch, b.detailUrl)) else old(b.Snapshot())
        {
          if b == bill {
            WithTextIdempotent(old(b.Snapshot()), TextOutcome(fetch, b.detailUrl));
          } else {
            assert b.Snapshot() == old@Before(b.Snapshot());
          }
        }
        SuccessCountSnoc(fetch, results, bill);
        assert billWithText.textSource == Some(TextOutcome(fetch, bill.detailUrl).source);
        results := results + [billWithText];
        if billWithText.textSource.Some? && IsSuccessSource(billWithText.textSource.value) {
          successful := successful + 1;
        }
        i := i + 1;
      }
      assert billsToProcess[..i] == billsToProcess;
    }

    /**
     * `scrape_with_text`: take the sample, leave out bills whose text file exists when
     * skipping, run the chain on each remaining bill in order and count the successes.
     */
    method ScrapeWithText(bills: seq<Bill>, sampleSize: Option<int>, skipExisting: bool, fetch: string -> D.Fetch)
      returns (results: seq<Bill>, successful: nat)
      modifies bills
      ensures results == ToProcess(bills, sampleSize, skipExisting, ExistingTextIds(textFiles.Keys))
      ensures successful == SuccessCount(fetch, results)
      ensures forall b :: b in bills ==>
        b.Snapshot() == if b in results then WithText(old(b.Snapshot()), TextOutcome(fetch, b.detailUrl)) else old(b.Snapshot())
    {
      var sample := Sample(bills, sampleSize);
      var billsToProcess: seq<Bill>;
      if skipExisting {
        var existingTextFiles := GetExistingTextFiles();
        billsToProcess := DropExistingText(sample, existingTextFiles);
      } else {
        billsToProcess := sample;
      }
      assert forall b :: b in billsToProcess ==> b in bills by {
        forall b | b in billsToProcess ensures b in bills {
          ToProcessMembers(bills, sampleSize, skipExisting, ExistingTextIds(textFiles.Keys), b);
          assert b in Sample(bills, sampleSize);
        }
      }
      results, successful := ProcessBills(billsToProcess, fetch);
    }

    /**
     * `save_results`: nothing for an empty list; otherwise the CSV's columns in their
     * final order, a text file for each bill with substantial text, and the summary. The summary's
     * listing raises `KeyError` (`summaryRaises`) after the files are written.
     */
    method SaveResults(bills: seq<Bill>)
      returns (columns: Option<seq<string>>, sources: seq<O.SourceCount>, substantial: nat, summaryRaises: bool)
      modifies this
      ensures bills == [] ==> columns.None? && sources == [] && substantial == 0 && !summaryRaises && textFiles == old(textFiles)
      ensures bills != [] ==> columns == Some(O.ColumnOrder(O.FrameColumns(O.MaKeyLists(old(Snapshots(bills))))))
      ensures bills != [] ==> textFiles == O.WriteTextFiles(old(textFiles), old(Snapshots(bills)), TextFileName)
      ensures bills != [] ==> sources == O.SourceCounts(old(Snapshots(bills))) && substantial == |O.SelectTextBills(old(Snapshots(bills)))|
      ensures bills != [] ==> summaryRaises == O.ListingRaises(old(Snapshots(bills)))
      ensures rawFiles == old(rawFiles)
    {
      if bills == [] {
        return None, [], 0, false;
      }
      var records := Snapshots(bills);
      columns := Some(O.ColumnOrder(O.FrameColumns(O.MaKeyLists(records))));
      var written := Reporting.WriteTextFiles(textFiles, records, TextFileName);
      sources, substantial, summaryRaises := Reporting.PrintSummary(records);
      textFiles := written;
    }
  }
}
