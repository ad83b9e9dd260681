/**
 * Parsed pages as data, and the page-level rules the scraper applies to them: finding a
 * text link by its label, resolving root-relative links, and choosing the content
 * region whose text is taken as the bill's text.
 */
module Documents {
  import opened Wrappers
  import opened Strings
  import opened Cleaning

  const BaseUrl: string := "https://malegislature.gov"

  /** An `<a>` element: its full text and its `href`, if it has one. */
  datatype Anchor = Anchor(text: string, href: Option<string>)

  /**
   * A parsed page: its anchors in document order, and for each CSS selector whose first
   * match exists, that element's text (`get_text(separator='\n', strip=True)`, taken
   * after scripts, styles and navigation have been removed). The selector `body` stands
   * for the body element, whichever way it is looked up.
   */
  datatype Document = Document(anchors: seq<Anchor>, regions: map<string, string>)

  /** A GET of a URL: the parsed page, or the message of the exception it raised. */
  datatype Fetch = Fetched(doc: Document) | FetchFailed(message: string)

  /** `base_url + href` for a root-relative link; any other link is kept as it is. */
  function ResolveUrl(href: string): string
  {
    if StartsWith(href, "/") then BaseUrl + href else href
  }

  /** An anchor that `find_text_link` accepts for the label `phrase`. */
  predicate LinkMatches(a: Anchor, phrase: string) {
    a.href.Some? && Contains(Lower(a.text), Lower(phrase))
  }

  /** The position of the first anchor, from `i` on, that matches the label. */
  function FirstMatchingLink(anchors: seq<Anchor>, phrase: string, i: nat): (r: Option<nat>)
    requires i <= |anchors|
    ensures r.Some? ==> i <= r.value < |anchors| && LinkMatches(anchors[r.value], phrase)
    ensures r.Some? ==> forall k :: i <= k < r.value ==> !LinkMatches(anchors[k], phrase)
    ensures r.None? ==> forall k :: i <= k < |anchors| ==> !LinkMatches(anchors[k], phrase)
    decreases |anchors| - i
  {
    if i == |anchors| then None
    else if LinkMatches(anchors[i], phrase) then Some(i)
    else FirstMatchingLink(anchors, phrase, i + 1)
  }

  /**
   * `find_text_link`: the resolved `href` of the first anchor with an `href` whose
   * lower-cased text contains the lower-cased label; `None` when there is none.
   */
  function FindTextLink(doc: Document, phrase: string): (r: Option<string>)
    ensures r.None? <==> forall k :: 0 <= k < |doc.anchors| ==> !LinkMatches(doc.anchors[k], phrase)
    ensures r.Some? ==> exists k :: (
      && 0 <= k < |doc.anchors|
      && LinkMatches(doc.anchors[k], phrase)
      && (forall m :: 0 <= m < k ==> !LinkMatches(doc.anchors[m], phrase))
      && r.value == ResolveUrl(doc.anchors[k].href.value))
  {
    match FirstMatchingLink(doc.anchors, phrase, 0)
    case None => None
    case Some(k) => Some(ResolveUrl(doc.anchors[k].href.value))
  }

  /** The label is matched without regard to case: a lower-cased label finds the same link. */
  lemma LabelCaseIgnored(doc: Document, phrase: string)
    ensures FindTextLink(doc, Lower(phrase)) == FindTextLink(doc, phrase)
  {
    LowerIdempotent(phrase);
    assert forall a :: LinkMatches(a, Lower(phrase)) == LinkMatches(a, phrase);
    SameMatchesSameLink(doc.anchors, Lower(phrase), phrase, 0);
  }

  lemma {:induction false} SameMatchesSameLink(anchors: seq<Anchor>, p1: string, p2: string, i: nat)
    requires i <= |anchors|
    requires forall a :: LinkMatches(a, p1) == LinkMatches(a, p2)
    ensures FirstMatchingLink(anchors, p1, i) == FirstMatchingLink(anchors, p2, i)
    decreases |anchors| - i
  {
    if i < |anchors| {
      SameMatchesSameLink(anchors, p1, p2, i + 1);
    }
  }

  /** Only the first matching anchor matters: later anchors never change the answer. */
  lemma FindTextLinkFirst(doc: Document, phrase: string, more: seq<Anchor>)
    requires FindTextLink(doc, phrase).Some?
    ensures FindTextLink(Document(doc.anchors + more, doc.regions), phrase) == FindTextLink(doc, phrase)
  {
    var d2 := Document(doc.anchors + more, doc.regions);
    var k := FirstMatchingLink(doc.anchors, phrase, 0).value;
    assert d2.anchors[k] == doc.anchors[k];
    assert forall m :: 0 <= m < k ==> d2.anchors[m] == doc.anchors[m];
    var k2 := FirstMatchingLink(d2.anchors, phrase, 0);
    assert k2 == Some(k);
  }

  /** The content selectors in the order `extract_clean_text` tries them. */
  const ContentSelectors: seq<string> := [
    ".billDocument", ".legislation", ".document-content",
    ".billText", ".legislation-text", "#billText",
    ".content", ".main-content", ".container", "body"]

  /** A region that exists and whose raw text is longer than 500 characters. */
  predicate IsLongRegion(doc: Document, selector: string) {
    selector in doc.regions && |doc.regions[selector]| > 500
  }

  /** The first selector, from position `i` of the list, naming a long region. */
  function FirstLongRegion(doc: Document, i: nat): (r: Option<nat>)
    requires i <= |ContentSelectors|
    ensures r.Some? ==> i <= r.value < |ContentSelectors| && IsLongRegion(doc, ContentSelectors[r.value])
    ensures r.Some? ==> forall k :: i <= k < r.value ==> !IsLongRegion(doc, ContentSelectors[k])
    ensures r.None? ==> forall k :: i <= k < |ContentSelectors| ==> !IsLongRegion(doc, ContentSelectors[k])
    decreases |ContentSelectors| - i
  {
    if i == |ContentSelectors| then None
    else if IsLongRegion(doc, ContentSelectors[i]) then Some(i)
    else FirstLongRegion(doc, i + 1)
  }

  /**
   * `extract_clean_text`: the cleaned text of the first long region in selector order;
   * failing that the cleaned body text, however short; failing that the empty string.
   */
  function ExtractCleanText(doc: Document): (text: string)
    ensures FirstLongRegion(doc, 0).Some? ==>
      text == CleanText(doc.regions[ContentSelectors[FirstLongRegion(doc, 0).value]])
    ensures FirstLongRegion(doc, 0).None? && "body" in doc.regions ==> text == CleanText(doc.regions["body"])
    ensures FirstLongRegion(doc, 0).None? && "body" !in doc.regions ==> text == ""
  {
    match FirstLongRegion(doc, 0)
    case Some(k) => CleanText(doc.regions[ContentSelectors[k]])
    case None => if "body" in doc.regions then CleanText(doc.regions["body"]) else ""
  }

  /**
   * The fallback to the body only sees short regions: a long body is already the last
   * candidate of the first-match scan, so the scan never falls through past it.
   */
  lemma BodyFallbackIsShort(doc: Document)
    requires FirstLongRegion(doc, 0).None? && "body" in doc.regions
    ensures |doc.regions["body"]| <= 500
  {
    assert ContentSelectors[9] == "body";
  }

  /** What selector priority means: a long region wins over every later selector. */
  lemma EarlierSelectorWins(doc: Document, i: nat)
    requires i < |ContentSelectors| && IsLongRegion(doc, ContentSelectors[i])
    ensures FirstLongRegion(doc, 0).Some? && FirstLongRegion(doc, 0).value <= i
  {
  }

  /** `extract_direct_text`: the cleaned `.content` text, or the empty string. */
  function ExtractDirectText(doc: Document): (text: string)
    ensures ".content" !in doc.regions ==> text == ""
    ensures ".content" in doc.regions ==> text == CleanText(doc.regions[".content"])
  {
    if ".content" in doc.regions then CleanText(doc.regions[".content"]) else ""
  }

  /** `get_text_from_url`: a failed fetch gives the empty string. */
  function GetTextFromUrl(fetch: string -> Fetch, url: string): (text: string)
    ensures fetch(url).FetchFailed? ==> text == ""
    ensures fetch(url).Fetched? ==> text == ExtractCleanText(fetch(url).doc)
  {
    match fetch(url)
    case Fetched(doc) => ExtractCleanText(doc)
    case FetchFailed(_) => ""
  }

  /** Extracted text is never longer than the region it came from. */
  lemma ExtractedTextBounded(doc: Document)
    ensures FirstLongRegion(doc, 0).Some? ==>
      |ExtractCleanText(doc)| <= |doc.regions[ContentSelectors[FirstLongRegion(doc, 0).value]]|
    ensures ".content" in doc.regions ==> |ExtractDirectText(doc)| <= |doc.regions[".content"]|
  {
    if FirstLongRegion(doc, 0).Some? {
      CleanTextShape(doc.regions[ContentSelectors[FirstLongRegion(doc, 0).value]]);
    }
    if ".content" in doc.regions {
      CleanTextShape(doc.regions[".content"]);
    }
  }
}
