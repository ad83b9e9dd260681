/**
 * The bill record. In the scraper a bill is a Python dict that is created from a listing
 * row, gets a `metadata` key when it is saved and text keys when its text is fetched, all
 * in place; here it is an object whose row fields are constant and whose later keys are
 * mutable, with a value snapshot for specifications.
 */
module Bills {
  import opened Wrappers

  /** The `text_source` values written by the text fallback chain. */
  datatype TextSource = ViewText | PrintPreview | Pdf | DirectPage | Failed | Error

  function SourceName(s: TextSource): (name: string)
    ensures name != "unknown"
  {
    match s
    case ViewText => "view_text"
    case PrintPreview => "print_preview"
    case Pdf => "pdf"
    case DirectPage => "direct_page"
    case Failed => "failed"
    case Error => "error"
  }

  lemma SourceNameInjective(a: TextSource, b: TextSource)
    ensures SourceName(a) == SourceName(b) <==> a == b
  {
  }

  /** The strategies whose text the scraper counts as a successful extraction. */
  predicate IsSuccessSource(s: TextSource) {
    s == ViewText || s == PrintPreview || s == DirectPage
  }

  /** `metadata`; the `scraped_at` timestamp is not modelled. */
  datatype Metadata = Metadata(session: string, billId: string, dataVersion: string)

  /** The fields read from one listing row. */
  datatype BasicInfo = BasicInfo(
    number: string,
    detailUrl: string,
    generalCourt: string,
    sponsor: Option<string>,
    title: Option<string>)

  /** A bill dict as a value: an absent key is `None`. */
  datatype BillRecord = BillRecord(
    number: string,
    detailUrl: string,
    generalCourt: string,
    sponsor: Option<string>,
    title: Option<string>,
    metadata: Option<Metadata>,
    fullText: Option<string>,
    textSource: Option<TextSource>,
    textUrl: Option<string>,
    textLength: Option<int>)

  /** The dict built by `extract_basic_info`, before any later key is set. */
  function FromInfo(info: BasicInfo): (r: BillRecord)
    ensures r.number == info.number && r.detailUrl == info.detailUrl && r.generalCourt == info.generalCourt
    ensures r.sponsor == info.sponsor && r.title == info.title
    ensures r.metadata.None? && r.fullText.None? && r.textSource.None? && r.textUrl.None? && r.textLength.None?
  {
    BillRecord(info.number, info.detailUrl, info.generalCourt, info.sponsor, info.title, None, None, None, None, None)
  }

  /** The five keys `extract_basic_info` writes, read back from a dict. */
  function Info(b: BillRecord): BasicInfo {
    BasicInfo(b.number, b.detailUrl, b.generalCourt, b.sponsor, b.title)
  }

  /**
   * Reading the row's fields back gives what was extracted, and a dict is a freshly
   * extracted one exactly when none of the later keys has been set.
   */
  lemma FreshRecordIff(info: BasicInfo, b: BillRecord)
    ensures Info(FromInfo(info)) == info
    ensures FromInfo(Info(b)) == b <==>
      b.metadata.None? && b.fullText.None? && b.textSource.None? && b.textUrl.None? && b.textLength.None?
  {
  }

  class Bill {
    const number: string
    const detailUrl: string
    const generalCourt: string
    const sponsor: Option<string>
    const title: Option<string>
    var metadata: Option<Metadata>
    var fullText: Option<string>
    var textSource: Option<TextSource>
    var textUrl: Option<string>
    var textLength: Option<int>

    constructor (info: BasicInfo)
      ensures Snapshot() == FromInfo(info)
    {
      number := info.number;
      detailUrl := info.detailUrl;
      generalCourt := info.generalCourt;
      sponsor := info.sponsor;
      title := info.title;
      metadata := None;
      fullText := None;
      textSource := None;
      textUrl := None;
      textLength := None;
    }

    /** The dict's current contents. */
    function Snapshot(): BillRecord
      reads this
    {
      BillRecord(number, detailUrl, generalCourt, sponsor, title, metadata, fullText, textSource, textUrl, textLength)
    }
  }

  /** The current contents of a list of bills. */
  function Snapshots(bills: seq<Bill>): (rs: seq<BillRecord>)
    reads bills
    ensures |rs| == |bills|
    ensures forall i :: 0 <= i < |bills| ==> rs[i] == bills[i].Snapshot()
  {
    seq(|bills|, i reads bills requires 0 <= i < |bills| => bills[i].Snapshot())
  }

  lemma SnapshotsAppend(a: seq<Bill>, b: seq<Bill>)
    ensures Snapshots(a + b) == Snapshots(a) + Snapshots(b)
  {
    assert forall i :: 0 <= i < |a + b| ==> (a + b)[i] == if i < |a| then a[i] else b[i - |a|];
  }

  /** No bill object appears twice: every dict in the list is its own. */
  predicate DistinctBills(bills: seq<Bill>) {
    forall k, m :: 0 <= k < m < |bills| ==> bills[k] != bills[m]
  }

  /** Joining two lists of distinct bills that share none keeps them distinct. */
  lemma DistinctBillsAppend(a: seq<Bill>, b: seq<Bill>)
    requires DistinctBills(a) && DistinctBills(b)
    requires forall k :: 0 <= k < |b| ==> b[k] !in a
    ensures DistinctBills(a + b)
  {
    forall k, m | 0 <= k < m < |a + b|
      ensures (a + b)[k] != (a + b)[m]
    {
      if m >= |a| {
        if k >= |a| {
          assert (a + b)[k] == b[k - |a|] && (a + b)[m] == b[m - |a|];
        } else {
          assert (a + b)[m] == b[m - |a|] && (a + b)[k] == a[k];
        }
      }
    }
  }

  /** A prefix one longer is the shorter prefix and the next element. */
  lemma PrefixSnoc<T>(s: seq<T>, i: int)
    requires 0 <= i < |s|
    ensures s[..i + 1] == s[..i] + [s[i]]
  {
  }

  /**
   * `bills[:sample_size]`, the whole list when no size is given: a prefix of at most the
   * given length; a negative size leaves off that many bills at the end.
   */
  function Sample<T>(s: seq<T>, sampleSize: Option<int>): (r: seq<T>)
    ensures |r| <= |s| && r == s[..|r|]
    ensures sampleSize.None? ==> r == s
    ensures sampleSize.Some? && 0 <= sampleSize.value ==> |r| == if sampleSize.value < |s| then sampleSize.value else |s|
    ensures sampleSize.Some? && sampleSize.value < 0 ==> |r| == if 0 < |s| + sampleSize.value then |s| + sampleSize.value else 0
  {
    match sampleSize
    case None => s
    case Some(n) =>
      if 0 <= n then (if n < |s| then s[..n] else s)
      else if 0 < |s| + n then s[..|s| + n] else []
  }
}
