# Massachusetts bill scraper, modelled in Dafny

This project models the core of a scraper for bills of the Massachusetts General Court.
There are two scrapers:

- `MABillScraper` in `scripts/ma_bill_scrapper.py` works across runs. Each bill it reads
  from the search listing is saved at once as a JSON file in its raw directory. The names
  of those files are decoded again to skip bills already scraped. The same scheme on text
  file names skips bills whose text is already stored.
- `FinalMABillScraper` in `scrapper.py` is the earlier single-file scraper. It has a
  five-column listing layout and no memory of earlier runs.

Both fetch each bill's text through the same ordered fallback chain:

1. the "View Text" page;
2. the "Print Preview" page;
3. a PDF placeholder;
4. the detail page's own content;
5. otherwise, a failure message.

Both then write a CSV, one text file per bill with substantial text, and a summary of text
sources.

The modules follow the program's structure:

- `Strings`: character classes and `str` helpers.
- `Cleaning`: `clean_text`.
- `DedupKeys`: file-name encoding, the ordinal session, and the decoding regular
  expressions.
- `Listing`: table rows and both `extract_basic_info` variants.
- `Documents`: anchors, content regions, `find_text_link` and the text extractors.
- `Fallback`: both `get_bill_text_final` chains.
- `Bills`: the bill dict as a class with a value snapshot.
- `Harvest`: the listing loops, on values.
- `Output`: column order, text-file selection and contents, source counts.
- `PageReader` and `Reporting`: the loop-based readers and writers, proved against those
  functions.
- `MaScraper` and `FinalScraper`: the two scraper classes.

Some things are parameters of the model:

- HTTP is a function from URL to a parsed page, or to the message of the exception the
  request raised.
- The listing is a function from page number to a page.
- A parsed page is its anchors in document order, plus a map from CSS selector to the text
  of the first element it selects.
- Each data directory is a map from file name to content.

## Model

| member | source | states |
|---|---|---|
| Strings.LowerIdempotent | scripts/ma_bill_scrapper.py:352 | lower-casing an already lower-cased string changes nothing |
| Strings.LowerFixedIff | scripts/ma_bill_scrapper.py:352 | a string is its own lower case exactly when it holds no ASCII capital |
| Strings.ReplaceChar | scripts/ma_bill_scrapper.py:248 | `str.replace` of one character: same length, each occurrence replaced, every other character kept |
| Strings.Strip | scripts/ma_bill_scrapper.py:427 | `str.strip`: the result is a contiguous slice of the input with no whitespace at either end, and no longer than the input |
| Bills.SourceNameInjective | scripts/ma_bill_scrapper.py:297-345 | the six `text_source` values are pairwise different, so counting by source name counts by strategy |
| Bills.FreshRecordIff | scripts/ma_bill_scrapper.py:208-235 | the five extracted fields read back unchanged, and a dict is a freshly extracted one exactly when none of the later keys is set |
| Bills.Bill.constructor | scripts/ma_bill_scrapper.py:208-235 | a new bill object holds the extracted fields and no metadata or text keys |
| Bills.Sample | scripts/ma_bill_scrapper.py:431-447 | `bills[:sample_size]`: always a prefix; all bills when no size is given; a non-negative size takes that many bills, capped at the list length; a negative size drops that many from the end |
| Cleaning.CollapseSpaces | scripts/ma_bill_scrapper.py:412 | after `[ \t]+` becomes one space there is no tab and no two adjacent spaces, the text is no longer, and it is empty exactly when the input is |
| Cleaning.CollapseBlankLinesShrinks | scripts/ma_bill_scrapper.py:411 | replacing each `\n\s*\n` by a blank line only removes characters: the result is a sub-multiset of the input |
| Cleaning.RemoveAllShrinks | scripts/ma_bill_scrapper.py:424-425 | removing every case-insensitive occurrence of a junk phrase only removes characters |
| Cleaning.RemoveBreadcrumbsShrinks | scripts/ma_bill_scrapper.py:416 | removing the lazy `Home › … › Bill` breadcrumbs only removes characters |
| Cleaning.RemovePhrasesShrinks | scripts/ma_bill_scrapper.py:415-425 | running all the literal junk-phrase removals in order only removes characters |
| Cleaning.CleanTextShape | scripts/ma_bill_scrapper.py:408-427 | cleaned text is never longer than its input, has no whitespace at either end, and contains no tab |
| Cleaning.NoNewlineUnchanged | scripts/ma_bill_scrapper.py:411 | text without a newline passes the blank-line step unchanged |
| Cleaning.SingleSpacedUnchanged | scripts/ma_bill_scrapper.py:412 | text with no tab and no double space passes the space step unchanged |
| Cleaning.NoHomeUnchanged | scripts/ma_bill_scrapper.py:416 | text without an `h` in either case has no breadcrumb to remove |
| Cleaning.NoPhraseStartUnchanged | scripts/ma_bill_scrapper.py:424-425 | text where the phrase's first letter never occurs in either case keeps that phrase's removal a no-op |
| Cleaning.StripUnchanged | scripts/ma_bill_scrapper.py:427 | text already without surrounding whitespace is its own strip |
| Cleaning.RemoveAtExactMatch | scripts/ma_bill_scrapper.py:424-425 | a phrase at the front of the text is removed and scanning resumes right after it |
| Cleaning.RemoveFirstDiffers | scripts/ma_bill_scrapper.py:424-425 | a first character that cannot start the phrase is kept and scanning resumes after it |
| Cleaning.KeepPrefix | scripts/ma_bill_scrapper.py:424-425 | a prefix in which the phrase's first letter never occurs is kept as it is |
| Cleaning.FirstPass | scripts/ma_bill_scrapper.py:408-427 | cleaning `x Back to Bill y`, for plain letters x and y, leaves `x`, two spaces, `y` |
| Cleaning.SecondPass | scripts/ma_bill_scrapper.py:408-427 | cleaning `x`, two spaces, `y` again collapses the two spaces into one |
| Cleaning.CleanTextNotIdempotent | scripts/ma_bill_scrapper.py:408-427 | cleaning is not a fixed point: cleaning the cleaned `x Back to Bill y` changes it again |
| DedupKeys.FirstOrdinal | scripts/ma_bill_scrapper.py:245 | the leftmost position where a whole digit run is followed by `st`, `nd`, `rd` or `th`, or none when no such position exists |
| DedupKeys.SessionOf | scripts/ma_bill_scrapper.py:245-246 | the session is the leftmost ordinal match (digits and suffix), or the default when there is none |
| DedupKeys.SessionShape | scripts/ma_bill_scrapper.py:245-246 | a session is either the default or at least one digit followed by an ordinal suffix |
| DedupKeys.SessionIsWord | scripts/ma_bill_scrapper.py:245-246 | every session `save_bill_data` or `save_results` can produce is a non-empty run of word characters, so `\w+` can match it |
| DedupKeys.Session194 | scripts/ma_bill_scrapper.py:233 | the general court `194th (2023-2024)` gives the session `194th` |
| DedupKeys.EncodeNumber | scripts/ma_bill_scrapper.py:248 | the encoded number has the same length and no dot |
| DedupKeys.DecodeId | scripts/ma_bill_scrapper.py:42 | the decoded number has the same length and no underscore |
| DedupKeys.DecodeEncode | scripts/ma_bill_scrapper.py:42 | decoding inverts encoding for every number without an underscore |
| DedupKeys.MatchSound | scripts/ma_bill_scrapper.py:38 | whenever the model of the anchored regular expression gives an id, the name really is a word, `_`, an id of the shape `[HS][D_]?\d+`, then the extension |
| DedupKeys.MatchComplete | scripts/ma_bill_scrapper.py:38 | whenever a name splits as word, `_`, id, extension, the regular-expression model finds exactly that id |
| DedupKeys.MatchIff | scripts/ma_bill_scrapper.py:38 | the regular-expression model gives an id exactly when the name splits that way around that id (both directions) |
| DedupKeys.RawFileNumber | scripts/ma_bill_scrapper.py:36-42 | a raw name yields a number only if it ends in `.json` |
| DedupKeys.TextFileId | scripts/ma_bill_scrapper.py:76-80 | a text name yields an id only if it ends in `.txt` |
| DedupKeys.BillIdsAdd | scripts/ma_bill_scrapper.py:35-43 | listing one more file adds at most the number that file decodes to |
| DedupKeys.TextIdsAdd | scripts/ma_bill_scrapper.py:75-80 | listing one more text file adds at most the id that file decodes to |
| DedupKeys.EncodedShape | scripts/ma_bill_scrapper.py:38 | a number's encoding fits `[HS][D_]?\d+` exactly when the number is a chamber letter, an optional `.` or `D`, and digits |
| DedupKeys.RawRoundTrip | scripts/ma_bill_scrapper.py:38-43 | the name `save_bill_data` builds at lines 245-249 decodes back to the bill's number exactly when the number has that decodable shape |
| DedupKeys.TextRoundTrip | scripts/ma_bill_scrapper.py:78-80 | the text file name built at line 499 is listed under the encoded number exactly when that encoding fits the id pattern |
| DedupKeys.BillIdsDecodable | scripts/ma_bill_scrapper.py:38-43 | every number read back from the raw directory has the decodable shape |
| DedupKeys.DocketNumbersNeverExist | scripts/ma_bill_scrapper.py:38-43 | a docket number such as `HD.123` is never among the existing ids, whatever the directory holds |
| DedupKeys.SavedNumberNotRescraped | scripts/ma_bill_scrapper.py:47-50 | once a bill with a decodable number is saved under any session, `should_scrape_bill` is false for that number, whatever the session of the bill asked about |
| Listing.ExtractBasicInfo | scripts/ma_bill_scrapper.py:196-239 | no record exactly for a header row, fewer than 4 cells, no link in cell 1, or empty link text; otherwise a non-empty number, `base_url + href`, the sponsor and title links, and the 194th court |
| Listing.ExtractBasicInfoFinal | scrapper.py:49-78 | no record exactly when there are fewer than 5 cells or cell 2 has no link; otherwise the court from cell 1's text and the number from cell 2's link, even when it is empty |
| Listing.DataRows | scrapper.py:34 | every row holding a `<td>` is kept, as often as it occurs, and no other row is |
| Listing.DataRowsAppend | scrapper.py:34 | the filter keeps the table's order: filtering two runs of rows joined is joining the two filtered runs |
| Listing.NonDataRowsYieldNothing | scrapper.py:34-37 | a row without `<td>` gives no record under either variant |
| Listing.InfoRowRoundTrip | scripts/ma_bill_scrapper.py:208-235 | every record with a non-empty number and the 194th court is read back exactly from its own row, so extraction loses nothing it keeps |
| Documents.FirstMatchingLink | scripts/ma_bill_scrapper.py:351-352 | the position found holds an anchor with an `href` whose lower-cased text contains the lower-cased label, and no earlier anchor does; none means no anchor does |
| Documents.FindTextLink | scripts/ma_bill_scrapper.py:349-356 | none exactly when no anchor matches; otherwise the first matching anchor's `href`, with `base_url` prepended when it starts with `/` |
| Documents.LabelCaseIgnored | scripts/ma_bill_scrapper.py:352 | a lower-cased label finds the same link as the label itself |
| Documents.FindTextLinkFirst | scripts/ma_bill_scrapper.py:351-355 | once an anchor matches, anchors added after it never change the link found |
| Documents.FirstLongRegion | scripts/ma_bill_scrapper.py:385-389 | the first selector in priority order whose element exists with more than 500 characters, and no earlier one qualifies |
| Documents.ExtractCleanText | scripts/ma_bill_scrapper.py:372-398 | the cleaned text of the first long region; failing that the cleaned body text, however short; failing that the empty string |
| Documents.BodyFallbackIsShort | scripts/ma_bill_scrapper.py:392-396 | the body fallback is only reached when the body text has at most 500 characters |
| Documents.EarlierSelectorWins | scripts/ma_bill_scrapper.py:379-390 | a long region under some selector means the chosen selector is that one or an earlier one |
| Documents.ExtractDirectText | scripts/ma_bill_scrapper.py:400-406 | the cleaned `.content` text when that element exists, else the empty string |
| Documents.GetTextFromUrl | scripts/ma_bill_scrapper.py:358-370 | a failed fetch gives the empty string; otherwise the page's extracted clean text |
| Documents.ExtractedTextBounded | scripts/ma_bill_scrapper.py:385-406 | extracted text is never longer than the region it was taken from |
| Fallback.WithText | scripts/ma_bill_scrapper.py:282-347 | the chain sets `full_text` and `text_source`, sets `text_url` and `text_length` only when the branch writes them, and leaves every other key as it was |
| Fallback.WriteText | scripts/ma_bill_scrapper.py:296-300 | the in-place writes of one branch change the bill exactly as the chain's outcome says |
| Fallback.WithTextIdempotent | scripts/ma_bill_scrapper.py:282-347 | writing an outcome twice leaves the bill as writing it once does |
| Fallback.ViewTextIff | scripts/ma_bill_scrapper.py:291-301 | the source is `view_text` exactly when the detail page was fetched, has a non-empty View Text link, and that page's cleaned text is longer than 500 |
| Fallback.PrintPreviewIff | scripts/ma_bill_scrapper.py:303-313 | the source is `print_preview` exactly when View Text did not succeed and the Print Preview link is non-empty and gives more than 500 characters |
| Fallback.PdfOutcome | scripts/ma_bill_scrapper.py:315-323 | the source is `pdf` exactly when both text links failed and a non-empty PDF link exists; its text is `PDF available at: ` and the URL, which is also its `text_url`, and its length is 0 |
| Fallback.FailedOutcome | scripts/ma_bill_scrapper.py:335-340 | `failed` exactly when every strategy failed, an empty PDF link counting as none; the text is `Could not extract bill text`, the length is 0, and no URL is written |
| Fallback.ErrorOutcome | scripts/ma_bill_scrapper.py:342-347 | `error` exactly when the detail page fetch raised; the text is `Error: ` and the message, and the length is 0 |
| Fallback.OutcomeLengths | scripts/ma_bill_scrapper.py:291-340 | for `view_text`, `print_preview` and `direct_page` the recorded length equals the text's length and is above 500; every other outcome records 0 |
| Fallback.PageTextIsClean | scripts/ma_bill_scrapper.py:358-398 | text read from a linked page has no surrounding whitespace and no tab |
| Fallback.DirectTextIsClean | scripts/ma_bill_scrapper.py:400-406 | text read from the detail page's content has no surrounding whitespace and no tab |
| Fallback.SuccessTextIsClean | scripts/ma_bill_scrapper.py:291-333 | a successful outcome's text is non-empty cleaned text |
| Fallback.ViewTextShortCircuits | scripts/ma_bill_scrapper.py:291-301 | once View Text succeeds, nothing the later strategies would fetch can change the outcome |
| Fallback.VariantsAgree | scrapper.py:80-138 | the scrapper.py chain picks the same source and text, never writes a length, and writes no URL on the direct-page branch |
| Fallback.TailsAgree | scrapper.py:112-132 | the ends of the two chains agree on text and source and differ only in the keys written |
| Fallback.ChainIsFirstSuccess | scripts/ma_bill_scrapper.py:282-340 | the nested chain equals the first success among View Text, Print Preview, PDF and direct page, each judged alone in that order (an empty link counts as none), else the failure outcome |
| Fallback.ChainTail | scripts/ma_bill_scrapper.py:315-340 | after both text links fail, the outcome is the first of a non-empty PDF link and long direct-page text, else failure |
| Harvest.SaveBillStores | scripts/ma_bill_scrapper.py:241-263 | saving adds one file under the bill's name holding the bill with every field kept; the metadata id is `MA_` plus the name without `.json`, version `1.0`; the number is then known exactly when it was known or is decodable |
| Harvest.Session194Of | scripts/ma_bill_scrapper.py:245-246 | every bill of the 194th court gets session `194th` |
| Harvest.SessionNamed194 | scripts/ma_bill_scrapper.py:245-257 | such a bill is saved as `194th_<encoded number>.json` with bill id `MA_194th_<encoded number>` |
| Harvest.RowStepSkipped | scripts/ma_bill_scrapper.py:164-167 | a readable row with a known number, when skipping, only adds one to the skipped count |
| Harvest.RowStepSaved | scripts/ma_bill_scrapper.py:169-174 | any other readable row is saved before the next row and appended to the page's bills |
| Harvest.RowStepTally | scripts/ma_bill_scrapper.py:161-177 | each row adds one to exactly one counter; a new bill adds itself and its file and nothing else changes |
| Harvest.RowTally | scripts/ma_bill_scrapper.py:156-177 | new, skipped and error counts sum to the number of rows; the new count is the number of page bills; without skipping nothing is skipped; the directory gains exactly the page bills' files |
| Harvest.RowsFresh | scripts/ma_bill_scrapper.py:161-177 | with skipping, no kept bill was in the directory at the start of the page, no decodable number is kept twice, and every kept decodable number is then known |
| Harvest.FreshConcat | scripts/ma_bill_scrapper.py:177 | that guarantee composes when pages are appended in order |
| Harvest.PageLimit | scripts/ma_bill_scrapper.py:138 | the loop covers the start page through the end page inclusive, and nothing when the end is before the start |
| Harvest.StopIsFinal | scripts/ma_bill_scrapper.py:184-187 | once the loop breaks off, later pages change nothing |
| Harvest.NoSkipNeverStops | scripts/ma_bill_scrapper.py:184-187 | without skipping the loop never breaks off, so every page is read |
| Harvest.HarvestFresh | scripts/ma_bill_scrapper.py:129-194 | over a whole run with skipping, no returned bill was known at the start and no decodable number is returned twice |
| Harvest.RowsSaved194 | scripts/ma_bill_scrapper.py:161-177 | every kept bill of a page is saved with session `194th` and a non-empty number |
| Harvest.HarvestSaved194 | scripts/ma_bill_scrapper.py:129-194 | every bill a run returns has a non-empty number, the `194th` metadata, and a file under its `194th_` name in the directory |
| Harvest.RowsBecomeKnown | scripts/ma_bill_scrapper.py:161-177 | after a page whose numbers are all decodable, every number it lists is known and no file was lost |
| Harvest.KnownRowsSkipped | scripts/ma_bill_scrapper.py:161-177 | a page whose numbers are all known keeps and saves nothing, and skips something exactly when it has a readable row |
| Harvest.UnreadableRowsSkipNothing | scripts/ma_bill_scrapper.py:161-177 | rows that `extract_basic_info` cannot read are never counted as skipped |
| Harvest.StopNeedsReadablePage | scripts/ma_bill_scrapper.py:184-187 | the loop cannot break off before it has read a page with a readable row |
| Harvest.ReachedPagesKnown | scripts/ma_bill_scrapper.py:138-187 | after a run over decodable pages, every page the run reached is fully known to the directory |
| Harvest.RerunUpTo | scripts/ma_bill_scrapper.py:138-187 | a second run over decodable pages keeps and saves nothing at every page, and passes only unreadable pages without breaking off |
| Harvest.SecondRunFindsNothing | scripts/ma_bill_scrapper.py:129-194 | harvest idempotence: a second run from the directory the first left saves and returns nothing, when every listed number is decodable |
| Harvest.DocketRowSavedEveryRun | scripts/ma_bill_scrapper.py:161-177 | without that condition idempotence fails: a row for `HD.1` is saved and returned on every run, whatever the directory holds |
| Harvest.SamePageEveryTurn | scrapper.py:20-23 | when every turn gets the same response, as the fixed `Page=1` URL makes it, the harvest is that page's records once per turn |
| Harvest.FirstPageTwice | scrapper.py:20-23 | the run over pages 1 to 2 lists every bill of the first page twice |
| Harvest.FinalRowBillsAppend | scrapper.py:36-40 | the records of two row lists read one after the other are the two lists' records joined |
| Harvest.DataRowFilterIsRedundant | scrapper.py:34-37 | the `<td>` filter drops no record |
| Harvest.FinalBillsFromRows | scrapper.py:36-40 | every record comes from a row of at least 5 cells, with the court from cell 1's text and the number and URL from cell 2's link |
| MaScraper.SuccessCountSnoc | scripts/ma_bill_scrapper.py:458-459 | one more processed bill adds one to the success count exactly when its source is `view_text`, `print_preview` or `direct_page` |
| MaScraper.WithoutTextMembers | scripts/ma_bill_scrapper.py:437-441 | with skipping, a bill is processed exactly when it is in the sample and its encoded number has no text file |
| MaScraper.ToProcessMembers | scripts/ma_bill_scrapper.py:429-448 | the bills to process are the sample's bills, less those with a text file when skipping |
| MaScraper.TextSavedThenSkipped | scripts/ma_bill_scrapper.py:494-499 | after `save_results` writes a bill's text file, the next text-file scan lists its encoded number, so the next run skips it, whenever the encoding fits the id pattern |
| MaScraper.MABillScraper.constructor | scripts/ma_bill_scrapper.py:12-28 | the scraper starts from the given raw and text directories |
| MaScraper.MABillScraper.GetExistingBillIds | scripts/ma_bill_scrapper.py:30-45 | the loop over the directory listing builds exactly the set of numbers decoded from the `.json` names |
| MaScraper.MABillScraper.ShouldScrapeBill | scripts/ma_bill_scrapper.py:47-50 | true exactly when the bill's number is not among the numbers decoded from the raw directory |
| MaScraper.MABillScraper.GetExistingTextFiles | scripts/ma_bill_scrapper.py:69-83 | the loop builds exactly the set of ids decoded from the `.txt` names |
| MaScraper.MABillScraper.SaveBillData | scripts/ma_bill_scrapper.py:241-263 | returns the bill's file name, sets its metadata in place, stores it under that name, and leaves the text directory alone |
| MaScraper.MABillScraper.ScrapeInfo | scripts/ma_bill_scrapper.py:162-174 | a read row is skipped exactly when skipping and its number is known, and then nothing is saved; otherwise a new bill object, not yet in any list, is saved with its metadata |
| MaScraper.MABillScraper.CountRow | scripts/ma_bill_scrapper.py:161-177 | one turn of the rows loop does what the row step says to the page's bills, counters and directory, keeps the bills distinct, and leaves earlier pages' bills untouched |
| MaScraper.MABillScraper.ScrapePage | scripts/ma_bill_scrapper.py:156-177 | the rows loop yields the page's bills, counters and directory as the row-by-row harvest does |
| MaScraper.MABillScraper.ScrapeBasicBillInfo | scripts/ma_bill_scrapper.py:129-194 | the page loop returns the harvest's bills, distinct objects in page order, and leaves the directory as the harvest does, with the early stop |
| MaScraper.MABillScraper.GetBillTextFinal | scripts/ma_bill_scrapper.py:282-347 | the bill is updated in place with the chain's outcome and returned; an empty `href` is skipped as no link |
| MaScraper.MABillScraper.DropExistingText | scripts/ma_bill_scrapper.py:437-441 | the skipping loop keeps the sample's bills without a text file, in order |
| MaScraper.MABillScraper.ProcessBills | scripts/ma_bill_scrapper.py:450-464 | every bill to process is returned in order and updated with its outcome; the count is the number of successes |
| MaScraper.MABillScraper.ScrapeWithText | scripts/ma_bill_scrapper.py:429-464 | the results are the bills to process; each of them carries its chain outcome; every other bill is untouched; the count is their successes |
| MaScraper.MABillScraper.SaveResults | scripts/ma_bill_scrapper.py:466-512 | nothing for no bills; otherwise the reordered CSV columns, the text files of the substantial bills under `{session}_{number}.txt`, the summary counts, and whether the summary's listing then raises `KeyError`; the raw directory is untouched |
| FinalScraper.FinalSuccessCountSnoc | scrapper.py:235-236 | one more bill adds one to the success count exactly when its source counts as a success |
| FinalScraper.FinalSuccessCountBound | scrapper.py:228-240 | there are never more successes than bills |
| FinalScraper.SameNumberSameFile | scrapper.py:267 | two bills with the same number share one text file, whatever their courts |
| FinalScraper.FinalHarvestStep | scrapper.py:20-40 | a page with a table adds the records of its data rows; any other page adds nothing |
| FinalScraper.FinalMABillScraper.constructor | scrapper.py:9-14 | the scraper starts from the given text folder |
| FinalScraper.FinalMABillScraper.ScrapeRows | scrapper.py:34-40 | the rows loop returns a new, distinct bill object for each `<td>` row that yields a record, in order |
| FinalScraper.FinalMABillScraper.NextPage | scrapper.py:20-44 | one turn of the page loop appends that page's records and keeps the bills distinct |
| FinalScraper.FinalMABillScraper.ScrapeBasicBillInfo | scrapper.py:16-47 | the page loop returns every page's records in page order, as distinct objects |
| FinalScraper.FinalMABillScraper.GetBillTextFinal | scrapper.py:80-138 | the bill is updated in place with the scrapper.py chain's outcome and returned; an empty `href` is skipped as no link |
| FinalScraper.FinalMABillScraper.ScrapeWithText | scrapper.py:220-241 | exactly one result per bill of `bills[:sample_size]`, in order, each updated with its outcome; the count is their successes |
| FinalScraper.FinalMABillScraper.ProcessBills | scrapper.py:230-238 | each sampled bill is updated with its outcome and returned in order, with its successes counted |
| FinalScraper.FinalMABillScraper.SaveResults | scrapper.py:243-280 | nothing for no bills; otherwise the reordered CSV columns, the text files of the substantial bills under `{number}.txt`, the summary counts, and whether the summary's listing then raises `KeyError` |
| Output.KeepIn | scripts/ma_bill_scrapper.py:481 | the filtered list holds exactly the columns of the list that are also in the other list |
| Output.DropIn | scripts/ma_bill_scrapper.py:482 | the filtered list holds exactly the columns not in the preferred list |
| Output.ColumnOrderPermutation | scripts/ma_bill_scrapper.py:479-484 | the reordered columns are a permutation of the frame's columns, without repeats |
| Output.PreferredFirst | scripts/ma_bill_scrapper.py:481-484 | every preferred column present comes before every other column |
| Output.ColumnOrderKeepsOrder | scripts/ma_bill_scrapper.py:481-484 | the preferred columns keep the preferred order and the others keep their frame order |
| Output.AddKeys | scripts/ma_bill_scrapper.py:477 | adding a row's keys keeps the columns so far in front and adds exactly the new keys |
| Output.FrameColumnsSound | scripts/ma_bill_scrapper.py:477 | the frame has one column for each key used by some bill, once, and no other |
| Output.CsvColumnsArePermutation | scrapper.py:253-257 | the CSV header is a permutation of the frame's columns, without repeats |
| Output.SelectTextBills | scripts/ma_bill_scrapper.py:489 | every selected bill has a full text longer than 1000 characters |
| Output.ListingRaisesIff | scripts/ma_bill_scrapper.py:532-534 | the first-five listing never raises when every bill has a title, and raises when the first bill with substantial text has none |
| Output.SelectTextBillsMembers | scripts/ma_bill_scrapper.py:489 | a bill is selected exactly when it is one of the bills and its full text is longer than 1000 characters |
| Output.TextFileLayout | scripts/ma_bill_scrapper.py:500-508 | the file is the six header lines, 60 `=`, a blank line, then the full text; its URL line names `text_url` if set, else `detail_url` |
| Output.WrittenNames | scripts/ma_bill_scrapper.py:494-508 | the files afterwards are the old files plus the names of the selected bills |
| Output.WrittenContent | scripts/ma_bill_scrapper.py:494-508 | a selected bill's file holds its layout unless a later selected bill has the same name |
| Output.ShortTextWritesNothing | scripts/ma_bill_scrapper.py:489 | a bill without substantial text writes no file |
| Output.SelectedWriteSame | scripts/ma_bill_scrapper.py:489-508 | writing only the selected bills writes the same files |
| Output.SourceKey | scripts/ma_bill_scrapper.py:521 | the key is `unknown` exactly when the bill has no `text_source` |
| Output.BumpTotal | scripts/ma_bill_scrapper.py:522 | one dict update adds one to the sum of the counts |
| Output.BumpCount | scripts/ma_bill_scrapper.py:522 | one dict update adds one to its key's count and changes no other count |
| Output.BumpSources | scripts/ma_bill_scrapper.py:522 | one dict update keeps the keys in insertion order and appends a key it has not seen |
| Output.CountsSumToTotal | scripts/ma_bill_scrapper.py:519-522 | the per-source counts sum to the number of bills |
| Output.CountsPerSource | scripts/ma_bill_scrapper.py:519-522 | each source's count is the number of bills reading as that source, and no source is listed twice |
| Output.UnknownCountsMissingSource | scripts/ma_bill_scrapper.py:521 | the `unknown` count is exactly the number of bills without a `text_source` |
| PageReader.CleanText | scripts/ma_bill_scrapper.py:408-427 | the loop over the junk phrases gives exactly the cleaned text |
| PageReader.FindTextLink | scripts/ma_bill_scrapper.py:349-356 | the loop over the anchors returns exactly the first matching link, resolved |
| PageReader.ExtractCleanText | scripts/ma_bill_scrapper.py:372-398 | the loop over the selectors returns exactly the extracted clean text |
| PageReader.ExtractDirectText | scripts/ma_bill_scrapper.py:400-406 | returns exactly the cleaned `.content` text or the empty string |
| PageReader.GetTextFromUrl | scripts/ma_bill_scrapper.py:358-370 | returns exactly the fetched page's clean text, or the empty string on a failed fetch |
| Reporting.WriteTextFiles | scripts/ma_bill_scrapper.py:494-508 | the loop over the selected bills leaves exactly the text files described above |
| Reporting.PrintSummary | scripts/ma_bill_scrapper.py:514-534 | the counts dict built by the loop is the per-source count, the substantial count is the number of selected bills, and the listing raises `KeyError` exactly when one of the first five selected bills has no title |

## Behaviour worth noting

- Cleaning is not idempotent: `Cleaning.CleanTextNotIdempotent` shows text that a second
  cleaning pass changes.
- `scrapper.py` accepts a row whose number link has empty text: see
  `Listing.ExtractBasicInfoFinal`.
- The skip check compares bill numbers only, not the session: see
  `DedupKeys.SavedNumberNotRescraped`.
- A second harvest over the same pages is empty only when every listed number survives
  the file-name encoding: see `Harvest.SecondRunFindsNothing`. Docket numbers such as
  `HD.1` are saved again on every run: see `Harvest.DocketRowSavedEveryRun`.
- `scrapper.py` requests `Page=1` on every turn of its page loop, so a run over pages 1
  to 2 lists every bill twice: see `Harvest.FirstPageTwice`.

## Left out

- HTTP is not modelled. Requests, headers and timeouts become a fetch function whose result
  is a parsed page or an exception message.
- HTML parsing is not modelled. `find_all`, `select_one`, `get_text` and `decompose` are
  given as the anchors and region texts of a parsed page.
- `time.sleep`, the `scraped_at` timestamp and the printed text are left out. Printing
  changes nothing the scraper stores or returns. The one exception is the first-five
  listing of `print_summary`, which can raise; that is modelled by `Reporting.PrintSummary`.
- Reporting.PrintSummary: states whether the listing raises `KeyError`, not which lines
  it printed before raising. The files `save_results` wrote stay written.
- `save_progress`, `load_existing_bills` and `debug_page_content` are left out. They only
  append to a progress CSV, read files back for display, or dump HTML for inspection.
- The `__main__` blocks are left out.
- Writing the CSV through pandas is left out. The model states the CSV's column order only.
- Filesystem errors are left out: a failed `open`, `json.dump` or `os.listdir`. So is the
  exception handler of the rows loop. The directories are maps that are always writable.
- `\w`, `\d`, `str.lower` and `re.IGNORECASE` are modelled on ASCII only; their behaviour
  on non-ASCII letters and digits is not modelled. `str.isspace` and `\s` are modelled
  with Python's full whitespace set, including the Unicode space characters
  (`Strings.IsSpace`).
- The breadcrumb pattern `Home\s*›.*?›\s*Bill` is modelled directly as a lazy scan. A
  general regular-expression engine is not modelled.
- The page URL of `scrapper.py` is not built. The listing is the response each turn of the
  page loop gets, `listing(n)`. The URL always names `Page=1`, so in practice every turn
  gets the same response, and `Harvest.SamePageEveryTurn` states what that harvest is.
- Documents.ExtractDirectText: reads the `.content` text as given. It does not model that
  the detail page's scripts and navigation were never removed before that text is read.
- FinalScraper.FinalMABillScraper.ScrapeBasicBillInfo: states that the bills are distinct
  objects holding the pages' records. It does not state that they are newly allocated.
  Only `ScrapeRows` states that, page by page.
- scripts/setup_federal_foundations.py is not part of this model. It only loads a
  third-party dataset and writes fixed JSON.
