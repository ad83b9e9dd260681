/**
 * The text fallback chain of `get_bill_text_final`: the detail page is fetched, then
 * View Text, Print Preview, the PDF link and the detail page's own content are tried in
 * that order. Both variants are here; they share the order and the thresholds.
 */
module Fallback {
  import opened Wrappers
  import opened Strings
  import opened Bills
  import opened Documents

  /** A strategy's text counts only when it is longer than this. */
  const MinTextLength: nat := 500

  const ViewTextLabel: string := "View Text"
  const PrintPreviewLabel: string := "Print Preview"
  const PdfLabel: string := "Download PDF"
  const PdfPrefix: string := "PDF available at: "
  const FailedText: string := "Could not extract bill text"
  const ErrorPrefix: string := "Error: "

  /**
   * The keys the chain writes: `full_text` and `text_source` always, `text_url` and
   * `text_length` only where the branch sets them (`None` = left as it was).
   */
  datatype TextResult = TextResult(fullText: string, source: TextSource, textUrl: Option<string>, textLength: Option<int>)

  /**
   * A link the chain follows: found, and not the empty string (an empty `href` is a
   * URL that tests false, so the chain treats it as no link).
   */
  predicate IsPresent(link: Option<string>) {
    link.Some? && link.value != ""
  }

  /** Text fetched from a present link that passes the length threshold. */
  predicate LinkGivesText(fetch: string -> Fetch, link: Option<string>) {
    IsPresent(link) && |GetTextFromUrl(fetch, link.value)| > MinTextLength
  }

  /** `get_bill_text_final` of scripts/ma_bill_scrapper.py. */
  function TextOutcome(fetch: string -> Fetch, detailUrl: string): TextResult {
    match fetch(detailUrl)
    case FetchFailed(message) => TextResult(ErrorPrefix + message, Error, None, Some(0))
    case Fetched(doc) =>
      var view := FindTextLink(doc, ViewTextLabel);
      if LinkGivesText(fetch, view) then
        var text := GetTextFromUrl(fetch, view.value);
        TextResult(text, ViewText, view, Some(|text|))
      else
        var preview := FindTextLink(doc, PrintPreviewLabel);
        if LinkGivesText(fetch, preview) then
          var text := GetTextFromUrl(fetch, preview.value);
          TextResult(text, PrintPreview, preview, Some(|text|))
        else TailOutcome(doc, detailUrl)
  }

  /** The end of the chain, once both text links have failed: PDF, direct page, failure. */
  function TailOutcome(doc: Document, detailUrl: string): TextResult {
    var pdf := FindTextLink(doc, PdfLabel);
    if IsPresent(pdf) then TextResult(PdfPrefix + pdf.value, Pdf, pdf, Some(0))
    else
      var direct := ExtractDirectText(doc);
      if |direct| > MinTextLength then TextResult(direct, DirectPage, Some(detailUrl), Some(|direct|))
      else TextResult(FailedText, Failed, None, Some(0))
  }

  /**
   * `get_bill_text_final` of scrapper.py: the same chain, without `text_length`, and its
   * direct-page branch leaves `text_url` unset.
   */
  function FinalTextOutcome(fetch: string -> Fetch, detailUrl: string): TextResult {
    match fetch(detailUrl)
    case FetchFailed(message) => TextResult(ErrorPrefix + message, Error, None, None)
    case Fetched(doc) =>
      var view := FindTextLink(doc, ViewTextLabel);
      if LinkGivesText(fetch, view) then
        TextResult(GetTextFromUrl(fetch, view.value), ViewText, view, None)
      else
        var preview := FindTextLink(doc, PrintPreviewLabel);
        if LinkGivesText(fetch, preview) then
          TextResult(GetTextFromUrl(fetch, preview.value), PrintPreview, preview, None)
        else FinalTailOutcome(doc)
  }

  /** The end of the scrapper.py chain: as `TailOutcome`, with fewer keys written. */
  function FinalTailOutcome(doc: Document): TextResult {
    var pdf := FindTextLink(doc, PdfLabel);
    if IsPresent(pdf) then TextResult(PdfPrefix + pdf.value, Pdf, pdf, None)
    else
      var direct := ExtractDirectText(doc);
      if |direct| > MinTextLength then TextResult(direct, DirectPage, None, None)
      else TextResult(FailedText, Failed, None, None)
  }

  /** The bill dict after the chain has written its keys. */
  function WithText(b: BillRecord, r: TextResult): (b': BillRecord)
    ensures b'.number == b.number && b'.detailUrl == b.detailUrl && b'.generalCourt == b.generalCourt
    ensures b'.sponsor == b.sponsor && b'.title == b.title && b'.metadata == b.metadata
    ensures b'.fullText == Some(r.fullText) && b'.textSource == Some(r.source)
    ensures b'.textUrl == (if r.textUrl.Some? then r.textUrl else b.textUrl)
    ensures b'.textLength == (if r.textLength.Some? then r.textLength else b.textLength)
  {
    b.(fullText := Some(r.fullText), textSource := Some(r.source),
       textUrl := if r.textUrl.Some? then r.textUrl else b.textUrl,
       textLength := if r.textLength.Some? then r.textLength else b.textLength)
  }

  /** Writes the keys an outcome sets into the bill dict, leaving the others as they were. */
  method WriteText(bill: Bill, r: TextResult)
    modifies bill
    ensures bill.Snapshot() == WithText(old(bill.Snapshot()), r)
  {
    bill.fullText := Some(r.fullText);
    bill.textSource := Some(r.source);
    if r.textUrl.Some? {
      bill.textUrl := r.textUrl;
    }
    if r.textLength.Some? {
      bill.textLength := r.textLength;
    }
  }

  /** Writing the same outcome twice leaves what writing it once does. */
  lemma WithTextIdempotent(b: BillRecord, r: TextResult)
    ensures WithText(WithText(b, r), r) == WithText(b, r)
  {
  }

  // ---------------------------------------------------------------------------
  // Properties of the chain
  // ---------------------------------------------------------------------------

  /** The View Text outcome happens exactly when its link is present and gives long text. */
  lemma ViewTextIff(fetch: string -> Fetch, detailUrl: string)
    ensures TextOutcome(fetch, detailUrl).source == ViewText <==>
      fetch(detailUrl).Fetched? && LinkGivesText(fetch, FindTextLink(fetch(detailUrl).doc, ViewTextLabel))
  {
  }

  /** Print Preview is used only after View Text failed, and when its own text is long. */
  lemma PrintPreviewIff(fetch: string -> Fetch, detailUrl: string)
    ensures TextOutcome(fetch, detailUrl).source == PrintPreview <==>
      && fetch(detailUrl).Fetched?
      && !LinkGivesText(fetch, FindTextLink(fetch(detailUrl).doc, ViewTextLabel))
      && LinkGivesText(fetch, FindTextLink(fetch(detailUrl).doc, PrintPreviewLabel))
  {
  }

  /**
   * The PDF placeholder: only after both text links failed and when the PDF link is
   * non-empty, with a zero length.
   */
  lemma PdfOutcome(fetch: string -> Fetch, detailUrl: string)
    ensures var r := TextOutcome(fetch, detailUrl);
      r.source == Pdf <==>
        && fetch(detailUrl).Fetched?
        && !LinkGivesText(fetch, FindTextLink(fetch(detailUrl).doc, ViewTextLabel))
        && !LinkGivesText(fetch, FindTextLink(fetch(detailUrl).doc, PrintPreviewLabel))
        && IsPresent(FindTextLink(fetch(detailUrl).doc, PdfLabel))
    ensures var r := TextOutcome(fetch, detailUrl);
      r.source == Pdf ==>
        var url := FindTextLink(fetch(detailUrl).doc, PdfLabel).value;
        url != "" && r.fullText == PdfPrefix + url && r.textUrl == Some(url) && r.textLength == Some(0)
  {
  }

  /** The failed outcome: a fixed message, zero length, and no URL written. */
  lemma FailedOutcome(fetch: string -> Fetch, detailUrl: string)
    ensures var r := TextOutcome(fetch, detailUrl);
      r.source == Failed ==> r.fullText == FailedText && r.textLength == Some(0) && r.textUrl.None?
    ensures TextOutcome(fetch, detailUrl).source == Failed <==>
      && fetch(detailUrl).Fetched?
      && !LinkGivesText(fetch, FindTextLink(fetch(detailUrl).doc, ViewTextLabel))
      && !LinkGivesText(fetch, FindTextLink(fetch(detailUrl).doc, PrintPreviewLabel))
      && !IsPresent(FindTextLink(fetch(detailUrl).doc, PdfLabel))
      && |ExtractDirectText(fetch(detailUrl).doc)| <= MinTextLength
  {
  }

  /** The error outcome comes from a failed detail-page fetch and carries its message. */
  lemma ErrorOutcome(fetch: string -> Fetch, detailUrl: string)
    ensures TextOutcome(fetch, detailUrl).source == Error <==> fetch(detailUrl).FetchFailed?
    ensures fetch(detailUrl).FetchFailed? ==>
      TextOutcome(fetch, detailUrl).fullText == ErrorPrefix + fetch(detailUrl).message
      && TextOutcome(fetch, detailUrl).textLength == Some(0)
  {
  }

  /**
   * Every outcome whose source counts as a success has a recorded length equal to the
   * text's length, and that length passes the threshold; every other outcome records 0.
   */
  lemma OutcomeLengths(fetch: string -> Fetch, detailUrl: string)
    ensures var r := TextOutcome(fetch, detailUrl);
      IsSuccessSource(r.source) ==> r.textLength == Some(|r.fullText|) && |r.fullText| > MinTextLength
    ensures var r := TextOutcome(fetch, detailUrl);
      !IsSuccessSource(r.source) ==> r.textLength == Some(0)
  {
    match fetch(detailUrl)
    case FetchFailed(_) =>
    case Fetched(doc) =>
      var view := FindTextLink(doc, ViewTextLabel);
      var preview := FindTextLink(doc, PrintPreviewLabel);
      if LinkGivesText(fetch, view) {
        assert TextOutcome(fetch, detailUrl).fullText == GetTextFromUrl(fetch, view.value);
      } else if LinkGivesText(fetch, preview) {
        assert TextOutcome(fetch, detailUrl).fullText == GetTextFromUrl(fetch, preview.value);
      }
  }

  /** Text taken from a page is cleaned text: no surrounding whitespace, no tab. */
  predicate IsCleanText(t: string) {
    (t == [] || (!IsSpace(t[0]) && !IsSpace(t[|t| - 1]))) && '\t' !in t
  }

  lemma PageTextIsClean(fetch: string -> Fetch, url: string)
    ensures IsCleanText(GetTextFromUrl(fetch, url))
  {
    match fetch(url)
    case FetchFailed(_) =>
    case Fetched(page) =>
      match FirstLongRegion(page, 0)
      case Some(k) => Cleaning.CleanTextShape(page.regions[ContentSelectors[k]]);
      case None =>
        if "body" in page.regions {
          Cleaning.CleanTextShape(page.regions["body"]);
        }
  }

  lemma DirectTextIsClean(doc: Document)
    ensures IsCleanText(ExtractDirectText(doc))
  {
    if ".content" in doc.regions {
      Cleaning.CleanTextShape(doc.regions[".content"]);
    }
  }

  /** A successful outcome's text is non-empty cleaned text. */
  lemma SuccessTextIsClean(fetch: string -> Fetch, detailUrl: string)
    ensures var r := TextOutcome(fetch, detailUrl);
      IsSuccessSource(r.source) ==> r.fullText != [] && IsCleanText(r.fullText)
  {
    OutcomeLengths(fetch, detailUrl);
    if !IsSuccessSource(TextOutcome(fetch, detailUrl).source) {
      return;
    }
    var doc := fetch(detailUrl).doc;
    var view := FindTextLink(doc, ViewTextLabel);
    var preview := FindTextLink(doc, PrintPreviewLabel);
    if LinkGivesText(fetch, view) {
      PageTextIsClean(fetch, view.value);
      assert TextOutcome(fetch, detailUrl).fullText == GetTextFromUrl(fetch, view.value);
    } else if LinkGivesText(fetch, preview) {
      PageTextIsClean(fetch, preview.value);
      assert TextOutcome(fetch, detailUrl).fullText == GetTextFromUrl(fetch, preview.value);
    } else {
      DirectTextIsClean(doc);
    }
  }

  /**
   * Short-circuit: once View Text succeeds, nothing the later strategies would fetch
   * matters. Any two fetchers that agree on the detail page and the View Text page give
   * the same outcome.
   */
  lemma ViewTextShortCircuits(fetch1: string -> Fetch, fetch2: string -> Fetch, detailUrl: string)
    ensures
      && fetch1(detailUrl) == fetch2(detailUrl) && fetch1(detailUrl).Fetched?
      && (var view := FindTextLink(fetch1(detailUrl).doc, ViewTextLabel);
          view.Some? && fetch1(view.value) == fetch2(view.value) && LinkGivesText(fetch1, view))
      ==> TextOutcome(fetch1, detailUrl) == TextOutcome(fetch2, detailUrl)
  {
  }

  /** The variant of scrapper.py writes the same text and source, but fewer keys. */
  lemma VariantsAgree(fetch: string -> Fetch, detailUrl: string)
    ensures var a := TextOutcome(fetch, detailUrl);
      var b := FinalTextOutcome(fetch, detailUrl);
      && b.fullText == a.fullText && b.source == a.source
      && b.textLength.None?
      && b.textUrl == (if a.source == DirectPage then None else a.textUrl)
  {
    match fetch(detailUrl)
    case FetchFailed(_) =>
    case Fetched(doc) =>
      if !LinkGivesText(fetch, FindTextLink(doc, ViewTextLabel)) && !LinkGivesText(fetch, FindTextLink(doc, PrintPreviewLabel)) {
        TailsAgree(doc, detailUrl);
      }
  }

  /** The two chain ends write the same text and source. */
  lemma TailsAgree(doc: Document, detailUrl: string)
    ensures var a := TailOutcome(doc, detailUrl);
      var b := FinalTailOutcome(doc);
      && b.fullText == a.fullText && b.source == a.source
      && b.textLength.None?
      && b.textUrl == (if a.source == DirectPage then None else a.textUrl)
  {
  }

  // ---------------------------------------------------------------------------
  // The chain as an ordered list of strategies (reference definition)
  // ---------------------------------------------------------------------------

  /** The first strategy in the list that produced a result. */
  function FirstSuccess(attempts: seq<Option<TextResult>>): Option<TextResult> {
    if attempts == [] then None
    else if attempts[0].Some? then attempts[0]
    else FirstSuccess(attempts[1..])
  }

  /** What one text link contributes, on its own. */
  function LinkAttempt(fetch: string -> Fetch, link: Option<string>, source: TextSource): Option<TextResult> {
    if LinkGivesText(fetch, link) then
      var text := GetTextFromUrl(fetch, link.value);
      Some(TextResult(text, source, link, Some(|text|)))
    else None
  }

  /** The PDF placeholder, when the page has a non-empty PDF link. */
  function PdfAttempt(doc: Document): Option<TextResult> {
    var pdf := FindTextLink(doc, PdfLabel);
    if IsPresent(pdf) then Some(TextResult(PdfPrefix + pdf.value, Pdf, pdf, Some(0))) else None
  }

  /** The detail page's own content, when it is long enough. */
  function DirectAttempt(doc: Document, detailUrl: string): Option<TextResult> {
    var direct := ExtractDirectText(doc);
    if |direct| > MinTextLength then Some(TextResult(direct, DirectPage, Some(detailUrl), Some(|direct|))) else None
  }

  /** The four strategies of the chain on a fetched detail page, each judged alone. */
  function Attempts(fetch: string -> Fetch, detailUrl: string, doc: Document): seq<Option<TextResult>> {
    [ LinkAttempt(fetch, FindTextLink(doc, ViewTextLabel), ViewText),
      LinkAttempt(fetch, FindTextLink(doc, PrintPreviewLabel), PrintPreview),
      PdfAttempt(doc),
      DirectAttempt(doc, detailUrl) ]
  }

  /**
   * The nested chain is the first success of the independent strategies in their fixed
   * order, with the failure message when none succeeds.
   */
  lemma ChainIsFirstSuccess(fetch: string -> Fetch, detailUrl: string)
    requires fetch(detailUrl).Fetched?
    ensures TextOutcome(fetch, detailUrl) ==
      FirstSuccess(Attempts(fetch, detailUrl, fetch(detailUrl).doc)).GetOr(TextResult(FailedText, Failed, None, Some(0)))
  {
    var doc := fetch(detailUrl).doc;
    var a := Attempts(fetch, detailUrl, doc);
    var out := TextOutcome(fetch, detailUrl);
    if LinkGivesText(fetch, FindTextLink(doc, ViewTextLabel)) {
      assert FirstSuccess(a) == a[0];
      assert out == a[0].value;
    } else if LinkGivesText(fetch, FindTextLink(doc, PrintPreviewLabel)) {
      assert FirstSuccess(a) == FirstSuccess(a[1..]) == a[1];
      assert out == a[1].value;
    } else {
      assert a[1..][1..] == [PdfAttempt(doc), DirectAttempt(doc, detailUrl)];
      assert FirstSuccess(a) == FirstSuccess(a[1..][1..]);
      ChainTail(doc, detailUrl, a[1..][1..]);
    }
  }

  /** The last two strategies, once both text links have failed. */
  lemma ChainTail(doc: Document, detailUrl: string, rest: seq<Option<TextResult>>)
    requires rest == [PdfAttempt(doc), DirectAttempt(doc, detailUrl)]
    ensures TailOutcome(doc, detailUrl) == FirstSuccess(rest).GetOr(TextResult(FailedText, Failed, None, Some(0)))
  {
    assert FirstSuccess(rest) == (if rest[0].Some? then rest[0] else FirstSuccess(rest[1..]));
    assert rest[1..][1..] == [];
    assert FirstSuccess(rest[1..]) == (if rest[1].Some? then rest[1] else FirstSuccess(rest[1..][1..]));
  }
}
