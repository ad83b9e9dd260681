/**
 * Output shaping shared by both scrapers: the CSV column order, the choice of bills that
 * get a text file and that file's contents, and the per-source counts of the summary.
 */
module Output {
  import opened Wrappers
  import opened Strings
  import opened Bills

  // ---------------------------------------------------------------------------
  // Column order
  // ---------------------------------------------------------------------------

  const PreferredOrder: seq<string> := ["number", "title", "sponsor", "general_court", "text_source", "text_length"]

  predicate Distinct(s: seq<string>) {
    forall i, j :: 0 <= i < j < |s| ==> s[i] != s[j]
  }

  /** `[c for c in s if c in keep]`. */
  function KeepIn(s: seq<string>, keep: seq<string>): (r: seq<string>)
    ensures forall x :: x in r <==> x in s && x in keep
  {
    if s == [] then []
    else (if s[0] in keep then [s[0]] else []) + KeepIn(s[1..], keep)
  }

  /** `[c for c in s if c not in drop]`. */
  function DropIn(s: seq<string>, drop: seq<string>): (r: seq<string>)
    ensures forall x :: x in r <==> x in s && x !in drop
  {
    if s == [] then []
    else (if s[0] !in drop then [s[0]] else []) + DropIn(s[1..], drop)
  }

  /** `existing_columns + other_columns` of `save_results`. */
  function ColumnOrder(columns: seq<string>): seq<string> {
    KeepIn(PreferredOrder, columns) + DropIn(columns, PreferredOrder)
  }

  lemma DistinctTail(s: seq<string>)
    requires s != [] && Distinct(s)
    ensures Distinct(s[1..]) && s[0] !in s[1..]
  {
    forall i, j | 0 <= i < j < |s[1..]| ensures s[1..][i] != s[1..][j] {
      assert s[1..][i] == s[i + 1] && s[1..][j] == s[j + 1];
    }
    forall k | 0 <= k < |s[1..]| ensures s[1..][k] != s[0] {
      assert s[1..][k] == s[k + 1];
    }
  }

  lemma DistinctAppend(a: seq<string>, b: seq<string>)
    requires Distinct(a) && Distinct(b)
    requires forall x :: x in a ==> x !in b
    ensures Distinct(a + b)
  {
    var c := a + b;
    forall i, j | 0 <= i < j < |c| ensures c[i] != c[j] {
      if j < |a| {
        assert c[i] == a[i] && c[j] == a[j];
      } else if i < |a| {
        assert c[i] == a[i] && a[i] in a;
        assert c[j] == b[j - |a|] && b[j - |a|] in b;
      } else {
        assert c[i] == b[i - |a|] && c[j] == b[j - |a|];
      }
    }
  }

  lemma {:induction false} KeepDistinct(s: seq<string>, keep: seq<string>)
    requires Distinct(s)
    ensures Distinct(KeepIn(s, keep))
  {
    if s != [] {
      DistinctTail(s);
      KeepDistinct(s[1..], keep);
      DistinctAppend(if s[0] in keep then [s[0]] else [], KeepIn(s[1..], keep));
    }
  }

  lemma {:induction false} DropDistinct(s: seq<string>, drop: seq<string>)
    requires Distinct(s)
    ensures Distinct(DropIn(s, drop))
  {
    if s != [] {
      DistinctTail(s);
      DropDistinct(s[1..], drop);
      DistinctAppend(if s[0] !in drop then [s[0]] else [], DropIn(s[1..], drop));
    }
  }

  lemma {:induction false} DistinctCount(s: seq<string>, x: string)
    requires Distinct(s)
    ensures multiset(s)[x] == if x in s then 1 else 0
  {
    if s != [] {
      assert s == [s[0]] + s[1..];
      DistinctTail(s);
      DistinctCount(s[1..], x);
    }
  }

  /** Two duplicate-free lists with the same members are permutations of each other. */
  lemma SameMembersPermutation(a: seq<string>, b: seq<string>)
    requires Distinct(a) && Distinct(b)
    requires forall x :: x in a <==> x in b
    ensures multiset(a) == multiset(b)
  {
    forall x ensures multiset(a)[x] == multiset(b)[x] {
      DistinctCount(a, x);
      DistinctCount(b, x);
    }
  }

  lemma PreferredOrderDistinct()
    ensures Distinct(PreferredOrder)
  {
  }

  /**
   * The reordered columns are a permutation of the frame's columns, with no column
   * duplicated or lost.
   */
  lemma ColumnOrderPermutation(columns: seq<string>)
    requires Distinct(columns)
    ensures multiset(ColumnOrder(columns)) == multiset(columns)
    ensures Distinct(ColumnOrder(columns))
  {
    var k := KeepIn(PreferredOrder, columns);
    var d := DropIn(columns, PreferredOrder);
    PreferredOrderDistinct();
    KeepDistinct(PreferredOrder, columns);
    DropDistinct(columns, PreferredOrder);
    DistinctAppend(k, d);
    assert forall x :: x in k + d <==> x in columns;
    SameMembersPermutation(k + d, columns);
  }

  /** Every preferred column comes before every other column. */
  lemma PreferredFirst(columns: seq<string>)
    ensures var r := ColumnOrder(columns);
      forall i, j :: 0 <= i < j < |r| && r[j] in PreferredOrder ==> r[i] in PreferredOrder
  {
    var k := KeepIn(PreferredOrder, columns);
    var r := ColumnOrder(columns);
    forall i, j | 0 <= i < j < |r| && r[j] in PreferredOrder ensures r[i] in PreferredOrder {
      assert j < |k|;
      assert r[i] == k[i];
    }
  }

  /** `s` occurs in `t` in the same relative order (greedy matching). */
  predicate IsSubsequence(s: seq<string>, t: seq<string>)
    decreases |t|
  {
    if s == [] then true
    else if t == [] then false
    else if s[0] == t[0] then IsSubsequence(s[1..], t[1..])
    else IsSubsequence(s, t[1..])
  }

  lemma {:induction false} KeepInOrder(s: seq<string>, keep: seq<string>)
    ensures IsSubsequence(KeepIn(s, keep), s)
    decreases |s|
  {
    if s != [] {
      KeepInOrder(s[1..], keep);
      var rest := KeepIn(s[1..], keep);
      if s[0] in keep {
        assert KeepIn(s, keep) == [s[0]] + rest;
        assert ([s[0]] + rest)[1..] == rest;
      } else {
        assert KeepIn(s, keep) == rest;
        assert rest != [] ==> rest[0] in rest;
      }
    }
  }

  lemma {:induction false} DropInOrder(s: seq<string>, drop: seq<string>)
    ensures IsSubsequence(DropIn(s, drop), s)
    decreases |s|
  {
    if s != [] {
      DropInOrder(s[1..], drop);
      var rest := DropIn(s[1..], drop);
      if s[0] !in drop {
        assert DropIn(s, drop) == [s[0]] + rest;
        assert ([s[0]] + rest)[1..] == rest;
      } else {
        assert DropIn(s, drop) == rest;
        assert rest != [] ==> rest[0] in rest;
      }
    }
  }

  /** The preferred columns keep the preferred order, the others their frame order. */
  lemma ColumnOrderKeepsOrder(columns: seq<string>)
    ensures var k := KeepIn(PreferredOrder, columns);
      ColumnOrder(columns) == k + DropIn(columns, PreferredOrder)
      && IsSubsequence(k, PreferredOrder)
      && IsSubsequence(DropIn(columns, PreferredOrder), columns)
  {
    KeepInOrder(PreferredOrder, columns);
    DropInOrder(columns, PreferredOrder);
  }

  // ---------------------------------------------------------------------------
  // The frame's columns: `pd.DataFrame(bills)` takes the keys in order of first use
  // ---------------------------------------------------------------------------

  /** `acc` followed by the keys of `keys` it does not hold yet, in order. */
  function AddKeys(acc: seq<string>, keys: seq<string>): (r: seq<string>)
    ensures forall x :: x in r <==> x in acc || x in keys
    ensures |acc| <= |r| && r[..|acc|] == acc
    decreases |keys|
  {
    if keys == [] then acc
    else if keys[0] in acc then AddKeys(acc, keys[1..])
    else
      var r := AddKeys(acc + [keys[0]], keys[1..]);
      assert r[..|acc|] == r[..|acc| + 1][..|acc|];
      r
  }

  lemma {:induction false} AddKeysDistinct(acc: seq<string>, keys: seq<string>)
    requires Distinct(acc)
    ensures Distinct(AddKeys(acc, keys))
    decreases |keys|
  {
    if keys != [] {
      if keys[0] in acc {
        AddKeysDistinct(acc, keys[1..]);
      } else {
        AddKeysDistinct(acc + [keys[0]], keys[1..]);
      }
    }
  }

  /** The columns of a frame built from rows with these key lists. */
  function FrameColumns(keyLists: seq<seq<string>>): seq<string>
    decreases |keyLists|
  {
    if keyLists == [] then [] else AddKeys(FrameColumns(keyLists[..|keyLists| - 1]), keyLists[|keyLists| - 1])
  }

  /** Every key of every row is a column, each exactly once, and nothing else is. */
  lemma {:induction false} FrameColumnsSound(keyLists: seq<seq<string>>)
    ensures Distinct(FrameColumns(keyLists))
    ensures forall x :: x in FrameColumns(keyLists) <==> exists i :: 0 <= i < |keyLists| && x in keyLists[i]
    decreases |keyLists|
  {
    if keyLists != [] {
      var init := keyLists[..|keyLists| - 1];
      FrameColumnsSound(init);
      AddKeysDistinct(FrameColumns(init), keyLists[|keyLists| - 1]);
      forall x | x in FrameColumns(keyLists) ensures exists i :: 0 <= i < |keyLists| && x in keyLists[i] {
        if x in FrameColumns(init) {
          var i :| 0 <= i < |init| && x in init[i];
          assert keyLists[i] == init[i];
        } else {
          assert x in keyLists[|keyLists| - 1];
        }
      }
      forall x | exists i :: 0 <= i < |keyLists| && x in keyLists[i] ensures x in FrameColumns(keyLists) {
        var i :| 0 <= i < |keyLists| && x in keyLists[i];
        if i < |init| {
          assert x in init[i];
        }
      }
    }
  }

  function OptKey(present: bool, key: string): seq<string> {
    if present then [key] else []
  }

  /**
   * The keys of a bill dict of scripts/ma_bill_scrapper.py, in insertion order: the row
   * fields, `metadata` from saving, then the text keys.
   */
  function MaKeys(r: BillRecord): seq<string> {
    ["number", "detail_url"] + OptKey(r.sponsor.Some?, "sponsor") + OptKey(r.title.Some?, "title")
    + ["general_court"] + OptKey(r.metadata.Some?, "metadata")
    + OptKey(r.fullText.Some?, "full_text") + OptKey(r.textSource.Some?, "text_source")
    + OptKey(r.textUrl.Some?, "text_url") + OptKey(r.textLength.Some?, "text_length")
  }

  /** The keys of a bill dict of scrapper.py, in insertion order. */
  function FinalKeys(r: BillRecord): seq<string> {
    ["general_court", "number", "detail_url"] + OptKey(r.sponsor.Some?, "sponsor") + OptKey(r.title.Some?, "title")
    + OptKey(r.metadata.Some?, "metadata")
    + OptKey(r.fullText.Some?, "full_text") + OptKey(r.textSource.Some?, "text_source")
    + OptKey(r.textUrl.Some?, "text_url") + OptKey(r.textLength.Some?, "text_length")
  }

  function MaKeyLists(rs: seq<BillRecord>): (ks: seq<seq<string>>)
    ensures |ks| == |rs| && forall i :: 0 <= i < |rs| ==> ks[i] == MaKeys(rs[i])
  {
    seq(|rs|, i requires 0 <= i < |rs| => MaKeys(rs[i]))
  }

  function FinalKeyLists(rs: seq<BillRecord>): (ks: seq<seq<string>>)
    ensures |ks| == |rs| && forall i :: 0 <= i < |rs| ==> ks[i] == FinalKeys(rs[i])
  {
    seq(|rs|, i requires 0 <= i < |rs| => FinalKeys(rs[i]))
  }

  /** The CSV header: every key used by some bill appears once. */
  lemma CsvColumnsArePermutation(keyLists: seq<seq<string>>)
    ensures multiset(ColumnOrder(FrameColumns(keyLists))) == multiset(FrameColumns(keyLists))
    ensures Distinct(ColumnOrder(FrameColumns(keyLists)))
  {
    FrameColumnsSound(keyLists);
    ColumnOrderPermutation(FrameColumns(keyLists));
  }

  // ---------------------------------------------------------------------------
  // Text files
  // ---------------------------------------------------------------------------

  /** `b.get('full_text') and len(b.get('full_text', '')) > 1000`. */
  predicate HasSubstantialText(r: BillRecord) {
    r.fullText.Some? && |r.fullText.value| > 1000
  }

  /** The bills that get a text file, in order. */
  function SelectTextBills(rs: seq<BillRecord>): (sel: seq<BillRecord>)
    ensures |sel| <= |rs|
    ensures forall i :: 0 <= i < |sel| ==> HasSubstantialText(sel[i])
  {
    if rs == [] then []
    else SelectTextBills(rs[..|rs| - 1]) + (if HasSubstantialText(rs[|rs| - 1]) then [rs[|rs| - 1]] else [])
  }

  /** A bill is selected exactly when it is one of the bills and has substantial text. */
  lemma {:induction false} SelectTextBillsMembers(rs: seq<BillRecord>, r: BillRecord)
    ensures r in SelectTextBills(rs) <==> r in rs && HasSubstantialText(r)
    decreases |rs|
  {
    if rs != [] {
      var init := rs[..|rs| - 1];
      SelectTextBillsMembers(init, r);
      assert rs == init + [rs[|rs| - 1]];
    }
  }

  /** How many of the bills with substantial text `print_summary` lists by number and title. */
  const ListedBills: nat := 5

  /**
   * The listing reads `bill['title']`, which raises `KeyError` when one of the listed
   * bills came from a row without a title link.
   */
  predicate ListingRaises(rs: seq<BillRecord>) {
    exists i :: 0 <= i < |SelectTextBills(rs)| && i < ListedBills && SelectTextBills(rs)[i].title.None?
  }

  /**
   * The listing raises exactly when some untitled bill has substantial text and fewer
   * than five titled ones come before it; bills that all carry titles never make it raise.
   */
  lemma ListingRaisesIff(rs: seq<BillRecord>)
    ensures (forall r :: r in rs ==> r.title.Some?) ==> !ListingRaises(rs)
    ensures |SelectTextBills(rs)| > 0 && SelectTextBills(rs)[0].title.None? ==> ListingRaises(rs)
  {
    if forall r :: r in rs ==> r.title.Some? {
      forall i | 0 <= i < |SelectTextBills(rs)| ensures SelectTextBills(rs)[i].title.Some? {
        SelectTextBillsMembers(rs, SelectTextBills(rs)[i]);
      }
    }
  }

  /** `'=' * 60`. */
  const Rule: string := Repeat('=', 60)

  function SourceField(r: BillRecord): string {
    match r.textSource
    case Some(s) => SourceName(s)
    case None => ""
  }

  /** The six header lines of a text file. */
  function TextFileHeader(r: BillRecord): string {
    "Bill: " + r.number + "\n"
    + "Title: " + r.title.GetOr("") + "\n"
    + "Sponsor: " + r.sponsor.GetOr("") + "\n"
    + "General Court: " + r.generalCourt + "\n"
    + "Source: " + SourceField(r) + "\n"
    + "URL: " + r.textUrl.GetOr(r.detailUrl) + "\n"
  }

  /** A text file: the header, a rule of 60 `=`, a blank line, then the full text. */
  function TextFileContent(r: BillRecord): string
    requires r.fullText.Some?
  {
    TextFileHeader(r) + Rule + "\n\n" + r.fullText.value
  }

  /**
   * The file ends with the bill's full text, right after the rule and the blank line, and
   * its URL line names the text URL when one was recorded and the detail page otherwise.
   */
  lemma TextFileLayout(r: BillRecord)
    requires r.fullText.Some?
    ensures var c := TextFileContent(r);
      && EndsWith(c, r.fullText.value)
      && EndsWith(c[..|c| - |r.fullText.value|], Repeat('=', 60) + "\n\n")
      && StartsWith(c, "Bill: " + r.number + "\n")
    ensures r.textUrl.Some? ==> EndsWith(TextFileHeader(r), "URL: " + r.textUrl.value + "\n")
    ensures r.textUrl.None? ==> EndsWith(TextFileHeader(r), "URL: " + r.detailUrl + "\n")
  {
    var c := TextFileContent(r);
    var h := TextFileHeader(r);
    assert c == h + (Rule + "\n\n") + r.fullText.value;
    assert c[..|c| - |r.fullText.value|] == h + (Rule + "\n\n");
    var front := "Bill: " + r.number + "\n";
    assert h == front + (h[|front|..]);
    assert c[..|front|] == front;
    var tail := "URL: " + r.textUrl.GetOr(r.detailUrl) + "\n";
    assert h == h[..|h| - |tail|] + tail;
  }

  /** The text files after writing the selected bills in order; a later bill overwrites. */
  function WriteTextFiles(store: map<string, string>, rs: seq<BillRecord>, fileName: BillRecord -> string): map<string, string>
    decreases |rs|
  {
    if rs == [] then store
    else
      var before := WriteTextFiles(store, rs[..|rs| - 1], fileName);
      var r := rs[|rs| - 1];
      if HasSubstantialText(r) then before[fileName(r) := TextFileContent(r)] else before
  }

  /** The files written are exactly the names of the selected bills. */
  lemma {:induction false} WrittenNames(store: map<string, string>, rs: seq<BillRecord>, fileName: BillRecord -> string)
    ensures WriteTextFiles(store, rs, fileName).Keys == store.Keys + set r | r in SelectTextBills(rs) :: fileName(r)
    decreases |rs|
  {
    if rs != [] {
      var init := rs[..|rs| - 1];
      WrittenNames(store, init, fileName);
      var last := rs[|rs| - 1];
      assert SelectTextBills(rs) == SelectTextBills(init) + (if HasSubstantialText(last) then [last] else []);
    }
  }

  /**
   * A file written for a bill holds that bill's content unless a later selected bill has
   * the same name.
   */
  lemma {:induction false} WrittenContent(store: map<string, string>, rs: seq<BillRecord>, fileName: BillRecord -> string, i: nat)
    requires i < |rs| && HasSubstantialText(rs[i])
    requires forall j :: i < j < |rs| && HasSubstantialText(rs[j]) ==> fileName(rs[j]) != fileName(rs[i])
    ensures fileName(rs[i]) in WriteTextFiles(store, rs, fileName)
    ensures WriteTextFiles(store, rs, fileName)[fileName(rs[i])] == TextFileContent(rs[i])
    decreases |rs|
  {
    if i < |rs| - 1 {
      var init := rs[..|rs| - 1];
      assert init[i] == rs[i];
      forall j | i < j < |init| && HasSubstantialText(init[j]) ensures fileName(init[j]) != fileName(init[i]) {
        assert init[j] == rs[j];
      }
      WrittenContent(store, init, fileName, i);
    }
  }

  /** A bill without substantial text writes nothing. */
  lemma ShortTextWritesNothing(store: map<string, string>, rs: seq<BillRecord>, r: BillRecord, fileName: BillRecord -> string)
    requires !HasSubstantialText(r)
    ensures WriteTextFiles(store, rs + [r], fileName) == WriteTextFiles(store, rs, fileName)
  {
    assert (rs + [r])[..|rs|] == rs;
  }

  lemma WriteSnoc(store: map<string, string>, rs: seq<BillRecord>, r: BillRecord, fileName: BillRecord -> string)
    ensures WriteTextFiles(store, rs + [r], fileName) ==
      var before := WriteTextFiles(store, rs, fileName);
      if HasSubstantialText(r) then before[fileName(r) := TextFileContent(r)] else before
  {
    assert (rs + [r])[..|rs|] == rs;
  }

  /** Writing only the selected bills writes the same files. */
  lemma {:induction false} SelectedWriteSame(store: map<string, string>, rs: seq<BillRecord>, fileName: BillRecord -> string)
    ensures WriteTextFiles(store, SelectTextBills(rs), fileName) == WriteTextFiles(store, rs, fileName)
    decreases |rs|
  {
    if rs != [] {
      var init := rs[..|rs| - 1];
      var last := rs[|rs| - 1];
      assert rs == init + [last];
      SelectedWriteSame(store, init, fileName);
      WriteSnoc(store, init, last, fileName);
      if HasSubstantialText(last) {
        assert SelectTextBills(rs) == SelectTextBills(init) + [last];
        WriteSnoc(store, SelectTextBills(init), last, fileName);
      } else {
        assert SelectTextBills(rs) == SelectTextBills(init);
      }
    }
  }

  // ---------------------------------------------------------------------------
  // Summary counts: `sources[source] = sources.get(source, 0) + 1`
  // ---------------------------------------------------------------------------

  datatype SourceCount = SourceCount(source: string, count: nat)

  /** `bill.get('text_source', 'unknown')`. */
  function SourceKey(r: BillRecord): (k: string)
    ensures r.textSource.None? <==> k == "unknown"
  {
    match r.textSource
    case Some(s) => SourceName(s)
    case None => "unknown"
  }

  /** One dict update: the key's count goes up by one, a new key is appended with 1. */
  function Bump(counts: seq<SourceCount>, key: string): seq<SourceCount>
    decreases |counts|
  {
    if counts == [] then [SourceCount(key, 1)]
    else if counts[0].source == key then [SourceCount(key, counts[0].count + 1)] + counts[1..]
    else [counts[0]] + Bump(counts[1..], key)
  }

  /** The counts dict after the loop over `rs`. */
  function SourceCounts(rs: seq<BillRecord>): seq<SourceCount>
    decreases |rs|
  {
    if rs == [] then [] else Bump(SourceCounts(rs[..|rs| - 1]), SourceKey(rs[|rs| - 1]))
  }

  function Total(counts: seq<SourceCount>): nat {
    if counts == [] then 0 else counts[0].count + Total(counts[1..])
  }

  /** The value stored under `key` (0 when absent). */
  function CountOf(counts: seq<SourceCount>, key: string): nat {
    if counts == [] then 0 else (if counts[0].source == key then counts[0].count else 0) + CountOf(counts[1..], key)
  }

  /** The number of bills whose source reads as `key`. */
  function Occurrences(rs: seq<BillRecord>, key: string): nat
    decreases |rs|
  {
    if rs == [] then 0 else Occurrences(rs[..|rs| - 1], key) + (if SourceKey(rs[|rs| - 1]) == key then 1 else 0)
  }

  /** The keys of the counts dict, in insertion order. */
  function Sources(counts: seq<SourceCount>): (ks: seq<string>)
    ensures |ks| == |counts|
  {
    if counts == [] then [] else [counts[0].source] + Sources(counts[1..])
  }

  predicate DistinctSources(counts: seq<SourceCount>) {
    Distinct(Sources(counts))
  }

  lemma {:induction false} BumpTotal(counts: seq<SourceCount>, key: string)
    ensures Total(Bump(counts, key)) == Total(counts) + 1
    decreases |counts|
  {
    if counts != [] && counts[0].source != key {
      BumpTotal(counts[1..], key);
    }
  }

  lemma {:induction false} BumpCount(counts: seq<SourceCount>, key: string, other: string)
    ensures CountOf(Bump(counts, key), other) == CountOf(counts, other) + (if key == other then 1 else 0)
    decreases |counts|
  {
    if counts != [] && counts[0].source != key {
      BumpCount(counts[1..], key, other);
    }
  }

  /** A dict update keeps the keys in place and appends a key it has not seen. */
  lemma {:induction false} BumpSources(counts: seq<SourceCount>, key: string)
    ensures Sources(Bump(counts, key)) == if key in Sources(counts) then Sources(counts) else Sources(counts) + [key]
    decreases |counts|
  {
    if counts != [] {
      var tail := counts[1..];
      assert Sources(counts) == [counts[0].source] + Sources(tail);
      if counts[0].source == key {
        assert Bump(counts, key)[1..] == tail;
        assert key in Sources(counts);
      } else {
        BumpSources(tail, key);
        assert Bump(counts, key)[1..] == Bump(tail, key);
        assert key in Sources(counts) <==> key in Sources(tail);
      }
    }
  }

  lemma BumpDistinct(counts: seq<SourceCount>, key: string)
    requires DistinctSources(counts)
    ensures DistinctSources(Bump(counts, key))
  {
    BumpSources(counts, key);
    if key !in Sources(counts) {
      DistinctAppend(Sources(counts), [key]);
    }
  }

  /** The summary's counts add up to the number of bills. */
  lemma {:induction false} CountsSumToTotal(rs: seq<BillRecord>)
    ensures Total(SourceCounts(rs)) == |rs|
    decreases |rs|
  {
    if rs != [] {
      CountsSumToTotal(rs[..|rs| - 1]);
      BumpTotal(SourceCounts(rs[..|rs| - 1]), SourceKey(rs[|rs| - 1]));
    }
  }

  /**
   * Each source is counted once per bill reading as that source; in particular a bill
   * without `text_source` is counted under `unknown`.
   */
  lemma {:induction false} CountsPerSource(rs: seq<BillRecord>, key: string)
    ensures CountOf(SourceCounts(rs), key) == Occurrences(rs, key)
    ensures DistinctSources(SourceCounts(rs))
    decreases |rs|
  {
    if rs != [] {
      CountsPerSource(rs[..|rs| - 1], key);
      BumpCount(SourceCounts(rs[..|rs| - 1]), SourceKey(rs[|rs| - 1]), key);
      BumpDistinct(SourceCounts(rs[..|rs| - 1]), SourceKey(rs[|rs| - 1]));
    }
  }

  /** The positions of the bills that carry no `text_source`. */
  function MissingSource(rs: seq<BillRecord>): set<int> {
    set i | 0 <= i < |rs| && rs[i].textSource.None?
  }

  lemma MissingSourceSnoc(rs: seq<BillRecord>)
    requires rs != []
    ensures var n := |rs| - 1;
      MissingSource(rs) == MissingSource(rs[..n]) + (if rs[n].textSource.None? then {n} else {})
      && n !in MissingSource(rs[..n])
  {
    var n := |rs| - 1;
    var init := rs[..n];
    forall i ensures i in MissingSource(rs) <==> i in MissingSource(init) || (i == n && rs[n].textSource.None?) {
      if 0 <= i < n {
        assert init[i] == rs[i];
      }
    }
  }

  /** The bills counted under `unknown` are exactly those without a text source. */
  lemma {:induction false} UnknownCountsMissingSource(rs: seq<BillRecord>)
    ensures Occurrences(rs, "unknown") == |MissingSource(rs)|
    decreases |rs|
  {
    if rs != [] {
      UnknownCountsMissingSource(rs[..|rs| - 1]);
      MissingSourceSnoc(rs);
    }
  }
}
