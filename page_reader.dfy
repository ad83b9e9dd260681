/**
 * The page-reading helpers both scrapers share, as the loops they are: scanning anchors
 * for a text link, scanning the content selectors, and applying the junk patterns one
 * after another. Each is proved to compute its specification function.
 */
module PageReader {
  import opened Wrappers
  import opened Strings
  import C = Cleaning
  import D = Documents

  /** `clean_text`: whitespace passes, then each junk pattern in turn, then `strip`. */
  method CleanText(text: string) returns (r: string)
    ensures r == C.CleanText(text)
  {
    var t := C.CollapseSpaces(C.CollapseBlankLines(text));
    t := C.RemoveBreadcrumbs(t);
    ghost var start := t;
    var i := 0;
    while i < |C.JunkPhrases|
      invariant 0 <= i <= |C.JunkPhrases|
      invariant C.RemovePhrases(t, C.JunkPhrases[i..]) == C.RemovePhrases(start, C.JunkPhrases)
    {
      assert C.JunkPhrases[i..][1..] == C.JunkPhrases[i + 1..];
      t := C.RemoveAllIgnoreCase(t, C.JunkPhrases[i]);
      i := i + 1;
    }
    r := Strip(t);
  }

  /** `find_text_link`: the first anchor with an `href` whose text holds the label. */
  method FindTextLink(doc: D.Document, linkText: string) returns (url: Option<string>)
    ensures url == D.FindTextLink(doc, linkText)
  {
    var i := 0;
    while i < |doc.anchors|
      invariant 0 <= i <= |doc.anchors|
      invariant D.FirstMatchingLink(doc.anchors, linkText, i) == D.FirstMatchingLink(doc.anchors, linkText, 0)
    {
      var link := doc.anchors[i];
      if link.href.Some? && Contains(Lower(link.text), Lower(linkText)) {
        assert D.LinkMatches(link, linkText);
        url := Some(D.ResolveUrl(link.href.value));
        return;
      }
      i := i + 1;
    }
    url := None;
  }

  /** `extract_clean_text`: the first selector whose text is long, else the body. */
  method ExtractCleanText(doc: D.Document) returns (text: string)
    ensures text == D.ExtractCleanText(doc)
  {
    var i := 0;
    while i < |D.ContentSelectors|
      invariant 0 <= i <= |D.ContentSelectors|
      invariant D.FirstLongRegion(doc, i) == D.FirstLongRegion(doc, 0)
    {
      var selector := D.ContentSelectors[i];
      if selector in doc.regions {
        var raw := doc.regions[selector];
        if |raw| > 500 {
          assert D.IsLongRegion(doc, selector);
          text := CleanText(raw);
          return;
        }
      }
      i := i + 1;
    }
    if "body" in doc.regions {
      text := CleanText(doc.regions["body"]);
    } else {
      text := "";
    }
  }

  /** `extract_direct_text`: the cleaned `.content` text, or nothing. */
  method ExtractDirectText(doc: D.Document) returns (text: string)
    ensures text == D.ExtractDirectText(doc)
  {
    if ".content" in doc.regions {
      text := CleanText(doc.regions[".content"]);
    } else {
      text := "";
    }
  }

  /** `get_text_from_url`: a failed GET reads as the empty text. */
  method GetTextFromUrl(fetch: string -> D.Fetch, url: string) returns (text: string)
    ensures text == D.GetTextFromUrl(fetch, url)
  {
    match fetch(url)
    case FetchFailed(_) =>
      text := "";
    case Fetched(doc) =>
      text := ExtractCleanText(doc);
  }
}
