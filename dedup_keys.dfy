/**
 * The on-disk dedup keys of the Massachusetts scraper: the file name a bill is saved
 * under, the session taken from its general court, and the decoding of stored file
 * names back to bill numbers by the patterns `(\w+)_([HS][D_]?\d+)\.json` and
 * `\w+_([HS][D_]?\d+)\.txt`.
 */
module DedupKeys {
  import opened Wrappers
  import opened Strings

  /** Session used by `save_bill_data` when the general court names no ordinal. */
  const UnknownSession: string := "unknown_session"
  /** Session used for text file names when the general court names no ordinal. */
  const UnknownTextSession: string := "unknown"

  const JsonExt: string := ".json"
  const TextExt: string := ".txt"

  // ---------------------------------------------------------------------------
  // Session: re.search(r'(\d+)(?:st|nd|rd|th)', general_court).group(0)
  // ---------------------------------------------------------------------------

  /** One of the English ordinal suffixes starts at index `k`. */
  predicate OrdinalSuffixAt(s: string, k: int) {
    0 <= k && k + 2 <= |s| && s[k..k + 2] in ["st", "nd", "rd", "th"]
  }

  /** The end of the run of digits that starts at `i`. */
  function DigitRunEnd(s: string, i: nat): (e: nat)
    requires i <= |s|
    ensures i <= e <= |s|
    ensures forall k :: i <= k < e ==> IsDigit(s[k])
    ensures e < |s| ==> !IsDigit(s[e])
  {
    i + PrefixRun(s[i..], IsDigit)
  }

  /**
   * The pattern matches at index `i`. The greedy `\d+` can only give back digits, and a
   * digit never starts a suffix, so the match must take the whole digit run.
   */
  predicate OrdinalAt(s: string, i: nat) {
    i < |s| && IsDigit(s[i]) && OrdinalSuffixAt(s, DigitRunEnd(s, i))
  }

  /** The leftmost index at or after `i` where the ordinal pattern matches. */
  function FirstOrdinal(s: string, i: nat): (r: Option<nat>)
    requires i <= |s|
    ensures r.Some? ==> i <= r.value < |s| && OrdinalAt(s, r.value)
    ensures r.Some? ==> forall m :: i <= m < r.value ==> !OrdinalAt(s, m)
    ensures r.None? ==> forall m :: i <= m < |s| ==> !OrdinalAt(s, m)
    decreases |s| - i
  {
    if i == |s| then None
    else if OrdinalAt(s, i) then Some(i)
    else FirstOrdinal(s, i + 1)
  }

  /** The session named by `generalCourt`, or `default` when no ordinal occurs in it. */
  function SessionOf(generalCourt: string, default: string): (session: string)
    ensures FirstOrdinal(generalCourt, 0).None? ==> session == default
    ensures FirstOrdinal(generalCourt, 0).Some? ==>
      var k := FirstOrdinal(generalCourt, 0).value;
      session == generalCourt[k..DigitRunEnd(generalCourt, k) + 2]
  {
    match FirstOrdinal(generalCourt, 0)
    case None => default
    case Some(k) => generalCourt[k..DigitRunEnd(generalCourt, k) + 2]
  }

  /** A session is a non-empty run of digits and an ordinal suffix, or the default. */
  lemma SessionShape(generalCourt: string, default: string)
    ensures var session := SessionOf(generalCourt, default);
      || session == default
      || (|session| >= 3 && AllDigits(session[..|session| - 2]) && session[|session| - 2..] in ["st", "nd", "rd", "th"])
  {
    match FirstOrdinal(generalCourt, 0)
    case None =>
    case Some(k) =>
      var e := DigitRunEnd(generalCourt, k);
      var session := generalCourt[k..e + 2];
      assert session[..|session| - 2] == generalCourt[k..e];
      assert session[|session| - 2..] == generalCourt[e..e + 2];
  }

  /** A session taken from the general court is a non-empty word when the default is one. */
  lemma SessionWord(generalCourt: string, default: string)
    requires default != [] && AllWord(default)
    ensures SessionOf(generalCourt, default) != [] && AllWord(SessionOf(generalCourt, default))
  {
    SessionShape(generalCourt, default);
    var session := SessionOf(generalCourt, default);
    if session != default {
      forall i | 0 <= i < |session| ensures IsWordChar(session[i]) {
        if i < |session| - 2 {
          assert session[i] == session[..|session| - 2][i];
        } else {
          assert session[i] == session[|session| - 2..][i - (|session| - 2)];
        }
      }
    }
  }

  lemma DefaultsAreWords()
    ensures UnknownSession != [] && AllWord(UnknownSession)
    ensures UnknownTextSession != [] && AllWord(UnknownTextSession)
  {
  }

  /** Every session the scraper can produce is a non-empty word, so it fits `\w+`. */
  lemma SessionIsWord(generalCourt: string)
    ensures SessionOf(generalCourt, UnknownSession) != []
    ensures AllWord(SessionOf(generalCourt, UnknownSession))
    ensures SessionOf(generalCourt, UnknownTextSession) != []
    ensures AllWord(SessionOf(generalCourt, UnknownTextSession))
  {
    DefaultsAreWords();
    SessionWord(generalCourt, UnknownSession);
    SessionWord(generalCourt, UnknownTextSession);
  }

  /** The general court the scraper writes, `194th (2023-2024)`, gives session `194th`. */
  lemma Session194(default: string)
    ensures SessionOf("194th (2023-2024)", default) == "194th"
  {
    var s := "194th (2023-2024)";
    assert s[3..][0] == 't';
    assert PrefixRun(s[3..], IsDigit) == 0;
    assert s[2..][1..] == s[3..];
    assert s[1..][1..] == s[2..];
    assert s[0..][1..] == s[1..];
    assert PrefixRun(s[0..], IsDigit) == 3;
    assert DigitRunEnd(s, 0) == 3;
    assert s[3] == 't' && s[4] == 'h';
    assert s[3..5] == ['t', 'h'];
    assert OrdinalAt(s, 0);
  }

  // ---------------------------------------------------------------------------
  // Encoding: f"{session}_{number.replace('.', '_')}.json"
  // ---------------------------------------------------------------------------

  /** `number.replace('.', '_')`. */
  function EncodeNumber(number: string): (r: string)
    ensures |r| == |number|
    ensures '.' !in r
  {
    ReplaceChar(number, '.', '_')
  }

  /** `id.replace('_', '.')`. */
  function DecodeId(id: string): (r: string)
    ensures |r| == |id|
    ensures '_' !in r
  {
    ReplaceChar(id, '_', '.')
  }

  /** The base name of a stored bill or text file. */
  function BillFileName(session: string, number: string, ext: string): string
  {
    session + "_" + EncodeNumber(number) + ext
  }

  /** `metadata['bill_id']`. */
  function StoredBillId(session: string, number: string): string {
    "MA_" + session + "_" + EncodeNumber(number)
  }

  lemma {:induction false} DecodeEncode(number: string)
    requires '_' !in number
    ensures DecodeId(EncodeNumber(number)) == number
  {
    var r := DecodeId(EncodeNumber(number));
    forall i | 0 <= i < |number| ensures r[i] == number[i] {
      assert number[i] != '_';
    }
  }

  // ---------------------------------------------------------------------------
  // Decoding: re.match(r'(\w+)_([HS][D_]?\d+)' + ext, filename)
  // ---------------------------------------------------------------------------

  predicate IsChamber(c: char) {
    c == 'H' || c == 'S'
  }

  /** What `[HS][D_]?\d+` matches as a whole. */
  predicate IsIdShape(id: string) {
    && |id| >= 2
    && IsChamber(id[0])
    && (|| (AllDigits(id[1..]))
        || (|id| >= 3 && (id[1] == 'D' || id[1] == '_') && AllDigits(id[2..])))
  }

  /**
   * The reference reading of the pattern: `f` starts with a non-empty word `g1`, an
   * underscore, an id of the right shape and the extension.
   */
  predicate MatchesAs(f: string, ext: string, g1: string, id: string) {
    g1 != [] && AllWord(g1) && IsIdShape(id) && StartsWith(f, g1 + "_" + id + ext)
  }

  /**
   * The id at the end of a run of word characters: its trailing digits, preceded by a
   * chamber letter and an underscore, or by a chamber letter, a `D` or `_`, and an
   * underscore, with at least one character before that underscore.
   */
  function RunEndId(w: string): (r: Option<string>)
  {
    var d := SuffixRun(w, IsDigit);
    var j := |w| - d;
    if d == 0 then None
    else if j >= 3 && IsChamber(w[j - 1]) && w[j - 2] == '_' then Some(w[j - 1..])
    else if j >= 4 && (w[j - 1] == 'D' || w[j - 1] == '_') && IsChamber(w[j - 2]) && w[j - 3] == '_' then Some(w[j - 2..])
    else None
  }

  /**
   * The second group of the anchored match, if any. `\w+_[HS][D_]?\d+` only covers word
   * characters, and the extension starts with a dot, so the id ends where the leading
   * run of word characters ends; its digits are the digits at the end of that run.
   */
  function MatchBillFile(f: string, ext: string): (r: Option<string>)
  {
    var l := PrefixRun(f, IsWordChar);
    if !StartsWith(f[l..], ext) then None else RunEndId(f[..l])
  }

  /** An id found at the end of a word run has the id shape, after an underscore. */
  lemma RunEndIdShape(w: string)
    requires RunEndId(w).Some?
    ensures var id := RunEndId(w).value;
      && |id| + 2 <= |w|
      && id == w[|w| - |id|..]
      && w[|w| - |id| - 1] == '_'
      && IsIdShape(id)
  {
    var j := |w| - SuffixRun(w, IsDigit);
    var id := RunEndId(w).value;
    if j >= 3 && IsChamber(w[j - 1]) && w[j - 2] == '_' {
      assert id == w[j - 1..];
      forall k | 0 <= k < |id| - 1 ensures IsDigit(id[1..][k]) {
        assert id[1..][k] == w[j + k];
      }
    } else {
      assert id == w[j - 2..];
      forall k | 0 <= k < |id| - 2 ensures IsDigit(id[2..][k]) {
        assert id[2..][k] == w[j + k];
      }
    }
  }

  /** Where a match ends: the id is the tail of the leading word run, after an underscore. */
  lemma MatchPosition(f: string, ext: string)
    requires MatchBillFile(f, ext).Some?
    ensures var l := PrefixRun(f, IsWordChar);
      var id := MatchBillFile(f, ext).value;
      && |id| + 2 <= l
      && id == f[l - |id|..l]
      && f[l - |id| - 1] == '_'
      && StartsWith(f[l..], ext)
      && IsIdShape(id)
  {
    var l := PrefixRun(f, IsWordChar);
    var w := f[..l];
    RunEndIdShape(w);
    var id := RunEndId(w).value;
    assert w[l - |id|..] == f[l - |id|..l];
    assert w[l - |id| - 1] == f[l - |id| - 1];
  }

  /** Soundness: a decoded id comes from a split of the name that the pattern describes. */
  lemma MatchSound(f: string, ext: string)
    requires MatchBillFile(f, ext).Some?
    ensures exists g1 :: MatchesAs(f, ext, g1, MatchBillFile(f, ext).value)
  {
    MatchPosition(f, ext);
    var l := PrefixRun(f, IsWordChar);
    var id := MatchBillFile(f, ext).value;
    var g1 := f[..l - |id| - 1];
    assert f[..l] == g1 + "_" + id;
    assert f[..l + |ext|] == g1 + "_" + id + ext;
    assert MatchesAs(f, ext, g1, id);
  }

  /** `PrefixRun` stops at the first character that fails the predicate. */
  lemma PrefixRunAt(s: string, p: char -> bool, n: nat)
    requires n <= |s|
    requires forall i :: 0 <= i < n ==> p(s[i])
    requires n < |s| ==> !p(s[n])
    ensures PrefixRun(s, p) == n
  {
  }

  /** `SuffixRun` stops at the last character that fails the predicate. */
  lemma SuffixRunAt(s: string, p: char -> bool, n: nat)
    requires n <= |s|
    requires forall i :: |s| - n <= i < |s| ==> p(s[i])
    requires n < |s| ==> !p(s[|s| - n - 1])
    ensures SuffixRun(s, p) == n
  {
  }

  /** A name the pattern describes has its leading word run end right before the extension. */
  lemma WordRunOfMatch(f: string, ext: string, g1: string, id: string)
    requires ext != [] && !IsWordChar(ext[0])
    requires MatchesAs(f, ext, g1, id)
    ensures var l := |g1| + 1 + |id|;
      && PrefixRun(f, IsWordChar) == l
      && f[..l] == g1 + "_" + id
      && StartsWith(f[l..], ext)
  {
    var w := g1 + "_" + id;
    var l := |w|;
    assert f[..l + |ext|] == w + ext;
    forall i | 0 <= i < l ensures IsWordChar(f[i]) {
      assert f[i] == w[i];
      if i < |g1| {
        assert w[i] == g1[i];
      } else if i > |g1| {
        assert w[i] == id[i - |g1| - 1];
      }
    }
    assert f[l] == ext[0];
    PrefixRunAt(f, IsWordChar, l);
    assert f[..l] == w;
    assert f[l..][..|ext|] == f[..l + |ext|][l..] == (w + ext)[l..] == ext;
  }

  /** The digits at the end of `g1_id` are those of the id, after its chamber (and `D`/`_`). */
  lemma DigitRunOfId(g1: string, id: string)
    requires IsIdShape(id)
    ensures SuffixRun(g1 + "_" + id, IsDigit) == if AllDigits(id[1..]) then |id| - 1 else |id| - 2
  {
    var tail := g1 + "_" + id;
    var digits := if AllDigits(id[1..]) then |id| - 1 else |id| - 2;
    forall i | |tail| - digits <= i < |tail| ensures IsDigit(tail[i]) {
      assert tail[i] == id[i - |g1| - 1];
      if AllDigits(id[1..]) {
        assert id[i - |g1| - 1] == id[1..][i - |g1| - 2];
      } else {
        assert id[i - |g1| - 1] == id[2..][i - |g1| - 3];
      }
    }
    assert tail[|tail| - digits - 1] == id[|id| - digits - 1];
    SuffixRunAt(tail, IsDigit, digits);
  }

  /** The id `g1_id` ends with is `id`. */
  lemma IdAtEnd(g1: string, id: string)
    requires g1 != [] && IsIdShape(id)
    ensures RunEndId(g1 + "_" + id) == Some(id)
  {
    DigitRunOfId(g1, id);
    var w := g1 + "_" + id;
    var n := |g1| + 1;
    assert w[n..] == id;
    assert w[n - 1] == '_';
    assert w[n] == id[0];
    if !AllDigits(id[1..]) {
      assert w[n + 1] == id[1];
    }
  }

  /** Completeness: every split the pattern describes is found, with the same id. */
  lemma MatchComplete(f: string, ext: string, g1: string, id: string)
    requires ext != [] && !IsWordChar(ext[0])
    requires MatchesAs(f, ext, g1, id)
    ensures MatchBillFile(f, ext) == Some(id)
  {
    WordRunOfMatch(f, ext, g1, id);
    IdAtEnd(g1, id);
  }

  /** The pattern decodes `f` to `id` exactly when some split of `f` fits it. */
  lemma MatchIff(f: string, ext: string, id: string)
    requires ext != [] && !IsWordChar(ext[0])
    ensures MatchBillFile(f, ext) == Some(id) <==> exists g1 :: MatchesAs(f, ext, g1, id)
  {
    if MatchBillFile(f, ext) == Some(id) {
      MatchSound(f, ext);
    }
    if g1 :| MatchesAs(f, ext, g1, id) {
      MatchComplete(f, ext, g1, id);
    }
  }

  // ---------------------------------------------------------------------------
  // The id sets read back from the store
  // ---------------------------------------------------------------------------

  /** The bill number one raw file name decodes to, in `get_existing_bill_ids`. */
  function RawFileNumber(f: string): (r: Option<string>)
    ensures r.Some? ==> EndsWith(f, JsonExt)
  {
    if EndsWith(f, JsonExt) then
      match MatchBillFile(f, JsonExt)
      case Some(id) => Some(DecodeId(id))
      case None => None
    else None
  }

  /** The id one text file name decodes to, in `get_existing_text_files`. */
  function TextFileId(f: string): (r: Option<string>)
    ensures r.Some? ==> EndsWith(f, TextExt)
  {
    if EndsWith(f, TextExt) then MatchBillFile(f, TextExt) else None
  }

  /** The set `get_existing_bill_ids` builds from the names in the raw directory. */
  function ExistingBillIds(names: set<string>): set<string> {
    set f | f in names && RawFileNumber(f).Some? :: RawFileNumber(f).value
  }

  /** The set `get_existing_text_files` builds from the names in the text directory. */
  function ExistingTextIds(names: set<string>): set<string> {
    set f | f in names && TextFileId(f).Some? :: TextFileId(f).value
  }

  /** Adding one file adds at most the id it decodes to. */
  lemma BillIdsAdd(names: set<string>, f: string)
    ensures ExistingBillIds(names + {f}) ==
      ExistingBillIds(names) + (if RawFileNumber(f).Some? then {RawFileNumber(f).value} else {})
  {
  }

  lemma TextIdsAdd(names: set<string>, f: string)
    ensures ExistingTextIds(names + {f}) ==
      ExistingTextIds(names) + (if TextFileId(f).Some? then {TextFileId(f).value} else {})
  {
  }

  /** One name moved from the pending set to the seen set, as the listing loops do. */
  lemma MoveSeen(seen: set<string>, pending: set<string>, f: string)
    requires f in pending && seen !! pending
    ensures (seen + {f}) + (pending - {f}) == seen + pending
    ensures (seen + {f}) !! (pending - {f})
    ensures |pending - {f}| < |pending|
  {
  }

  /**
   * The numbers that survive the trip through a file name: a chamber letter, then
   * optionally a dot or a `D`, then digits (`H.2212`, `S12`, `HD12`).
   */
  predicate IsDecodableNumber(number: string) {
    && |number| >= 2
    && IsChamber(number[0])
    && (|| AllDigits(number[1..])
        || (|number| >= 3 && (number[1] == '.' || number[1] == 'D') && AllDigits(number[2..])))
  }

  lemma EncodedShape(number: string)
    ensures IsDecodableNumber(number) <==> '_' !in number && IsIdShape(EncodeNumber(number))
  {
    var e := EncodeNumber(number);
    if |number| >= 2 {
      assert e[1..] == EncodeNumber(number[1..]);
      if IsDecodableNumber(number) {
        forall i | 0 <= i < |number| ensures number[i] != '_' {
          if i >= 2 {
            assert number[i] == number[2..][i - 2];
          } else if i == 1 && AllDigits(number[1..]) {
            assert number[1] == number[1..][0];
          }
        }
      }
      if |number| >= 3 {
        assert e[2..] == EncodeNumber(number[2..]);
      }
    }
  }

  /** The name a bill is saved under, when the session is a word. */
  lemma EncodedFileSplit(session: string, number: string, ext: string)
    requires session != [] && AllWord(session)
    requires IsIdShape(EncodeNumber(number))
    ensures MatchesAs(BillFileName(session, number, ext), ext, session, EncodeNumber(number))
  {
    var f := BillFileName(session, number, ext);
    assert f[..|session + "_" + EncodeNumber(number) + ext|] == f;
  }

  /**
   * A match inside a saved name covers the whole encoded number whenever it is as long,
   * because the first dot of the name is the one that starts the extension.
   */
  lemma EncodedMatchIsEncoding(session: string, number: string, ext: string)
    requires AllWord(session) && ext != [] && ext[0] == '.'
    requires MatchBillFile(BillFileName(session, number, ext), ext).Some?
    requires |MatchBillFile(BillFileName(session, number, ext), ext).value| == |number|
    ensures MatchBillFile(BillFileName(session, number, ext), ext).value == EncodeNumber(number)
  {
    var f := BillFileName(session, number, ext);
    var w := session + "_" + EncodeNumber(number);
    MatchPosition(f, ext);
    var l := PrefixRun(f, IsWordChar);
    assert f == w + ext;
    assert f[|w|] == '.';
    assert l == |w|;
    assert f[l - |number|..l] == EncodeNumber(number);
  }

  /**
   * Round trip: a bill saved under any session is found again by `get_existing_bill_ids`
   * exactly when its number is decodable; other numbers (`HD.123`) are never found.
   */
  lemma RawRoundTrip(session: string, number: string)
    requires session != [] && AllWord(session)
    ensures number in ExistingBillIds({BillFileName(session, number, JsonExt)}) <==> IsDecodableNumber(number)
  {
    var f := BillFileName(session, number, JsonExt);
    EncodedShape(number);
    assert f[|f| - |JsonExt|..] == JsonExt;
    if IsDecodableNumber(number) {
      EncodedFileSplit(session, number, JsonExt);
      MatchComplete(f, JsonExt, session, EncodeNumber(number));
      DecodeEncode(number);
      assert RawFileNumber(f) == Some(number);
    }
    if number in ExistingBillIds({f}) {
      var id := MatchBillFile(f, JsonExt).value;
      assert DecodeId(id) == number;
      EncodedMatchIsEncoding(session, number, JsonExt);
      MatchPosition(f, JsonExt);
    }
  }

  /** Round trip for text files: the encoded number is found exactly when it has the id shape. */
  lemma TextRoundTrip(session: string, number: string)
    requires session != [] && AllWord(session)
    ensures EncodeNumber(number) in ExistingTextIds({BillFileName(session, number, TextExt)}) <==> IsIdShape(EncodeNumber(number))
  {
    var f := BillFileName(session, number, TextExt);
    assert f[|f| - |TextExt|..] == TextExt;
    if IsIdShape(EncodeNumber(number)) {
      EncodedFileSplit(session, number, TextExt);
      MatchComplete(f, TextExt, session, EncodeNumber(number));
    }
    if EncodeNumber(number) in ExistingTextIds({f}) {
      MatchPosition(f, TextExt);
    }
  }

  /** Reading an id of the pattern's shape back as a number gives a decodable number. */
  lemma IdShapeDecodes(id: string)
    requires IsIdShape(id)
    ensures IsDecodableNumber(DecodeId(id))
  {
    var n := DecodeId(id);
    if AllDigits(id[1..]) {
      forall i | 1 <= i < |n| ensures IsDigit(n[i]) {
        assert id[i] == id[1..][i - 1];
      }
      assert AllDigits(n[1..]);
    } else {
      forall i | 2 <= i < |n| ensures IsDigit(n[i]) {
        assert id[i] == id[2..][i - 2];
      }
      assert AllDigits(n[2..]);
    }
  }

  /** Every id read back from the raw directory is a decodable number. */
  lemma BillIdsDecodable(names: set<string>)
    ensures forall number :: number in ExistingBillIds(names) ==> IsDecodableNumber(number)
  {
    forall number | number in ExistingBillIds(names) ensures IsDecodableNumber(number) {
      var f :| f in names && RawFileNumber(f).Some? && RawFileNumber(f).value == number;
      MatchPosition(f, JsonExt);
      IdShapeDecodes(MatchBillFile(f, JsonExt).value);
    }
  }

  /**
   * House and Senate docket numbers (`HD.1234`, `SD.1234`) are never read back, whatever
   * the directory holds, so they are never seen as already scraped.
   */
  lemma DocketNumbersNeverExist(names: set<string>, chamber: char, digits: string)
    requires IsChamber(chamber) && digits != [] && AllDigits(digits)
    ensures [chamber, 'D', '.'] + digits !in ExistingBillIds(names)
  {
    var n := [chamber, 'D', '.'] + digits;
    assert n[1..][0] == 'D';
    assert n[2..][0] == '.';
    assert !IsDecodableNumber(n);
    BillIdsDecodable(names);
  }

  /** `should_scrape_bill`: the number is not among the decoded ids. */
  predicate ShouldScrape(number: string, names: set<string>) {
    number !in ExistingBillIds(names)
  }

  /**
   * The session part of stored names plays no part: saving a decodable number under any
   * session stops it from being scraped again, whatever session the next bill carries.
   */
  lemma SavedNumberNotRescraped(names: set<string>, session: string, number: string)
    requires session != [] && AllWord(session) && IsDecodableNumber(number)
    ensures !ShouldScrape(number, names + {BillFileName(session, number, JsonExt)})
  {
    RawRoundTrip(session, number);
    BillIdsAdd(names, BillFileName(session, number, JsonExt));
  }
}
