/**
 * `clean_text`: the whitespace collapsing, boilerplate removal and strip applied to every
 * extracted text (scripts/ma_bill_scrapper.py and scrapper.py hold identical copies).
 * Each regular-expression substitution is modelled as the left-to-right scan with
 * non-overlapping matches that `re.sub` performs.
 */
module Cleaning {
  import opened Wrappers
  import opened Strings

  /** The breadcrumb separator `›` (U+203A). */
  const Chevron: char := '\U{203A}'

  /** The literal boilerplate phrases removed after the breadcrumb pattern, in order. */
  const JunkPhrases: seq<string> :=
    ["Massachusetts General Court", "Search Bills", "Print this page", "Share this page", "Back to Bill"]

  predicate IsBlank(c: char) {
    c == ' ' || c == '\t'
  }

  /**
   * `re.sub(r'\n\s*\n', '\n\n', s)`: at a newline, the greedy `\s*` backs off to the last
   * newline of the following whitespace run, and the whole match becomes one blank line.
   */
  function CollapseBlankLines(s: string): string
    decreases |s|
  {
    if s == [] then []
    else if s[0] == '\n' then
      var w := PrefixRun(s[1..], IsSpace);
      match LastIndexOf(s[1..1 + w], '\n')
      case Some(j) => "\n\n" + CollapseBlankLines(s[j + 2..])
      case None => [s[0]] + CollapseBlankLines(s[1..])
    else
      [s[0]] + CollapseBlankLines(s[1..])
  }

  /** One step of the scan: what it emits is drawn from the characters it consumes. */
  lemma CollapseBlankLinesStep(s: string) returns (head: string, k: nat)
    requires s != []
    ensures 1 <= k <= |s|
    ensures CollapseBlankLines(s) == head + CollapseBlankLines(s[k..])
    ensures multiset(head) <= multiset(s[..k])
  {
    var w := PrefixRun(s[1..], IsSpace);
    var m := LastIndexOf(s[1..1 + w], '\n');
    if s[0] == '\n' && m.Some? {
      k := BlankLineStep(s);
      head := "\n\n";
    } else {
      k := 1;
      head := [s[0]];
      assert s[..1] == head;
    }
  }

  /** The blank-line branch of the scan. */
  lemma BlankLineStep(s: string) returns (k: nat)
    requires s != [] && s[0] == '\n'
    requires LastIndexOf(s[1..1 + PrefixRun(s[1..], IsSpace)], '\n').Some?
    ensures 2 <= k <= |s|
    ensures CollapseBlankLines(s) == "\n\n" + CollapseBlankLines(s[k..])
    ensures multiset("\n\n") <= multiset(s[..k])
  {
    var u := s[1..1 + PrefixRun(s[1..], IsSpace)];
    var j := LastIndexOf(u, '\n').value;
    k := j + 2;
    assert s[k - 1] == u[j];
    BlankLineMatchMultiset(s, k);
  }

  /** Every blank-line match holds the two newlines that replace it. */
  lemma {:induction false} CollapseBlankLinesShrinks(s: string)
    ensures multiset(CollapseBlankLines(s)) <= multiset(s)
    decreases |s|
  {
    if s != [] {
      var head, k := CollapseBlankLinesStep(s);
      var rest := CollapseBlankLines(s[k..]);
      CollapseBlankLinesShrinks(s[k..]);
      JoinShrinks(head, rest, s, k);
    }
  }

  /** Concatenation keeps a sub-multiset relation piece by piece. */
  lemma JoinShrinks(a: string, x: string, s: string, k: nat)
    requires k <= |s|
    requires multiset(a) <= multiset(s[..k]) && multiset(x) <= multiset(s[k..])
    ensures multiset(a + x) <= multiset(s)
  {
    assert s == s[..k] + s[k..];
  }

  lemma HeadMultiset(s: string)
    requires s != []
    ensures multiset(s) == multiset{s[0]} + multiset(s[1..])
  {
    assert s == [s[0]] + s[1..];
  }

  /** A match that starts and ends with a newline holds the two newlines that replace it. */
  lemma BlankLineMatchMultiset(s: string, e: nat)
    requires 2 <= e <= |s| && s[0] == '\n' && s[e - 1] == '\n'
    ensures multiset("\n\n") <= multiset(s[..e])
  {
    assert s[..e] == [s[0]] + s[1..e - 1] + [s[e - 1]];
  }

  /** `re.sub(r'[ \t]+', ' ', s)`: every run of spaces and tabs becomes one space. */
  function CollapseSpaces(s: string): (r: string)
    ensures |r| <= |s|
    ensures (r == []) == (s == [])
    ensures s != [] ==> r[0] == (if IsBlank(s[0]) then ' ' else s[0])
    ensures forall i :: 0 <= i < |r| ==> r[i] != '\t'
    ensures forall i :: 0 < i < |r| ==> !(r[i - 1] == ' ' && r[i] == ' ')
    decreases |s|
  {
    if s == [] then []
    else if IsBlank(s[0]) then
      var n := PrefixRun(s, IsBlank);
      " " + CollapseSpaces(s[n..])
    else
      [s[0]] + CollapseSpaces(s[1..])
  }

  /** `re.sub(phrase, '', s, flags=re.IGNORECASE)` for a literal phrase. */
  function RemoveAllIgnoreCase(s: string, phrase: string): string
    decreases |s|
  {
    if s == [] || phrase == [] then s
    else if |phrase| <= |s| && EqualsIgnoreCase(s[..|phrase|], phrase) then
      RemoveAllIgnoreCase(s[|phrase|..], phrase)
    else
      [s[0]] + RemoveAllIgnoreCase(s[1..], phrase)
  }

  /** Removing matches only deletes characters. */
  lemma {:induction false} RemoveAllShrinks(s: string, phrase: string)
    ensures multiset(RemoveAllIgnoreCase(s, phrase)) <= multiset(s)
    decreases |s|
  {
    if s != [] && phrase != [] {
      if |phrase| <= |s| && EqualsIgnoreCase(s[..|phrase|], phrase) {
        assert s == s[..|phrase|] + s[|phrase|..];
        RemoveAllShrinks(s[|phrase|..], phrase);
      } else {
        HeadMultiset(s);
        RemoveAllShrinks(s[1..], phrase);
      }
    }
  }

  /** The end of `\s*Bill` (ignoring case) matched from index `u` of `s`. */
  function BillAfter(s: string, u: nat): (e: Option<nat>)
    requires u <= |s|
    ensures e.Some? ==> u + 4 <= e.value <= |s|
  {
    var b := u + PrefixRun(s[u..], IsSpace);
    if b + 4 <= |s| && EqualsIgnoreCase(s[b..b + 4], "Bill") then Some(b + 4) else None
  }

  /** The lazy `.*?›\s*Bill` from index `t`: the first chevron on this line that a `Bill` follows. */
  function LazyChevronBill(s: string, t: nat): (e: Option<nat>)
    requires t <= |s|
    ensures e.Some? ==> t < e.value <= |s|
    decreases |s| - t
  {
    if t == |s| then None
    else if s[t] == Chevron && BillAfter(s, t + 1).Some? then BillAfter(s, t + 1)
    else if s[t] == '\n' then None
    else LazyChevronBill(s, t + 1)
  }

  /** The end of a match of `Home\s*›.*?›\s*Bill` (ignoring case) at the start of `s`. */
  function BreadcrumbMatch(s: string): (e: Option<nat>)
    ensures e.Some? ==> 0 < e.value <= |s|
  {
    if |s| < 4 || !EqualsIgnoreCase(s[..4], "Home") then None
    else
      var a := 4 + PrefixRun(s[4..], IsSpace);
      if a < |s| && s[a] == Chevron then LazyChevronBill(s, a + 1) else None
  }

  /** `re.sub(r'Home\s*›.*?›\s*Bill', '', s, flags=re.IGNORECASE)`. */
  function RemoveBreadcrumbs(s: string): string
    decreases |s|
  {
    if s == [] then []
    else match BreadcrumbMatch(s)
      case Some(e) => RemoveBreadcrumbs(s[e..])
      case None => [s[0]] + RemoveBreadcrumbs(s[1..])
  }

  lemma {:induction false} RemoveBreadcrumbsShrinks(s: string)
    ensures multiset(RemoveBreadcrumbs(s)) <= multiset(s)
    decreases |s|
  {
    if s != [] {
      match BreadcrumbMatch(s)
      case Some(e) =>
        assert s == s[..e] + s[e..];
        RemoveBreadcrumbsShrinks(s[e..]);
      case None =>
        HeadMultiset(s);
        RemoveBreadcrumbsShrinks(s[1..]);
    }
  }

  /** The removal of every junk phrase in `phrases`, one pass per phrase, in order. */
  function RemovePhrases(s: string, phrases: seq<string>): string
    decreases |phrases|
  {
    if phrases == [] then s else RemovePhrases(RemoveAllIgnoreCase(s, phrases[0]), phrases[1..])
  }

  lemma {:induction false} RemovePhrasesShrinks(s: string, phrases: seq<string>)
    ensures multiset(RemovePhrases(s, phrases)) <= multiset(s)
    decreases |phrases|
  {
    if phrases != [] {
      RemoveAllShrinks(s, phrases[0]);
      RemovePhrasesShrinks(RemoveAllIgnoreCase(s, phrases[0]), phrases[1..]);
    }
  }

  /** `clean_text`. */
  function CleanText(s: string): string {
    Strip(RemovePhrases(RemoveBreadcrumbs(CollapseSpaces(CollapseBlankLines(s))), JunkPhrases))
  }

  lemma MultisetLength(a: string, b: string)
    requires multiset(a) <= multiset(b)
    ensures |a| <= |b|
  {
    var d := multiset(b) - multiset(a);
    assert multiset(b) == multiset(a) + d;
    assert |multiset(b)| == |multiset(a)| + |d|;
  }

  lemma MultisetExcludes(a: string, b: string, c: char)
    requires multiset(a) <= multiset(b)
    requires c !in b
    ensures c !in a
  {
    assert multiset(b)[c] == 0;
    assert multiset(a)[c] <= multiset(b)[c];
  }

  lemma StripKeepsOut(s: string, c: char)
    requires c !in s
    ensures c !in Strip(s)
  {
    var r := Strip(s);
    var k :| TrimmedAt(s, r, k);
    assert forall i :: 0 <= i < |r| ==> r[i] == s[k + i];
  }

  /**
   * What `clean_text` promises: the result has no surrounding whitespace, contains no tab, and is
   * never longer than its input (every substitution replaces a match by something no longer).
   */
  lemma CleanTextShape(s: string)
    ensures |CleanText(s)| <= |s|
    ensures CleanText(s) == [] || (!IsSpace(CleanText(s)[0]) && !IsSpace(CleanText(s)[|CleanText(s)| - 1]))
    ensures '\t' !in CleanText(s)
  {
    var a := CollapseBlankLines(s);
    var b := CollapseSpaces(a);
    var d := RemoveBreadcrumbs(b);
    var c := RemovePhrases(d, JunkPhrases);
    assert Strip(c) == CleanText(s);
    CollapseBlankLinesShrinks(s);
    RemoveBreadcrumbsShrinks(b);
    RemovePhrasesShrinks(d, JunkPhrases);
    ShapeFromStages(s, a, b, d, c);
  }

  /** The length and tab facts of the pipeline, from what each stage keeps. */
  lemma ShapeFromStages(s: string, a: string, b: string, d: string, c: string)
    requires multiset(a) <= multiset(s) && |b| <= |a| && '\t' !in b
    requires multiset(d) <= multiset(b) && multiset(c) <= multiset(d)
    ensures |Strip(c)| <= |s| && '\t' !in Strip(c)
  {
    MultisetLength(a, s);
    MultisetLength(c, b);
    MultisetExcludes(c, b, '\t');
    StripKeepsOut(c, '\t');
  }

  /** Without a newline there is no blank-line run, and the text is left alone. */
  lemma {:induction false} NoNewlineUnchanged(s: string)
    requires '\n' !in s
    ensures CollapseBlankLines(s) == s
    decreases |s|
  {
    if s != [] {
      assert s[0] != '\n';
      NoNewlineUnchanged(s[1..]);
    }
  }

  /** Text without tabs and without two adjacent spaces has nothing to collapse. */
  lemma {:induction false} SingleSpacedUnchanged(s: string)
    requires '\t' !in s
    requires forall i :: 0 < i < |s| ==> !(s[i - 1] == ' ' && s[i] == ' ')
    ensures CollapseSpaces(s) == s
    decreases |s|
  {
    if s != [] {
      assert s[0] != '\t';
      if s[0] == ' ' {
        assert |s| > 1 ==> s[1] != ' ' && s[1] != '\t';
        assert PrefixRun(s, IsBlank) == 1;
      }
      SingleSpacedUnchanged(s[1..]);
    }
  }

  /** Only an `h` (either case) can start a breadcrumb: text without one keeps every character. */
  lemma {:induction false} NoHomeUnchanged(s: string)
    requires forall i :: 0 <= i < |s| ==> LowerChar(s[i]) != 'h'
    ensures RemoveBreadcrumbs(s) == s
    decreases |s|
  {
    if s != [] {
      if |s| >= 4 {
        assert Lower(s[..4])[0] != Lower("Home")[0];
      }
      assert BreadcrumbMatch(s).None?;
      NoHomeUnchanged(s[1..]);
    }
  }

  /**
   * A phrase whose first letter (either case) appears at no index where the phrase could start
   * is never removed.
   */
  lemma {:induction false} NoPhraseStartUnchanged(s: string, phrase: string)
    requires phrase != []
    requires forall i :: 0 <= i <= |s| - |phrase| ==> LowerChar(s[i]) != LowerChar(phrase[0])
    ensures RemoveAllIgnoreCase(s, phrase) == s
    decreases |s|
  {
    if s != [] {
      if |phrase| <= |s| {
        assert LowerChar(s[0]) != LowerChar(phrase[0]);
        RemoveFirstDiffers(s, phrase);
      }
      var t := s[1..];
      assert forall i :: 0 <= i <= |t| - |phrase| ==> t[i] == s[i + 1];
      NoPhraseStartUnchanged(t, phrase);
      assert s == [s[0]] + t;
    }
  }

  /** Text whose first and last characters are not whitespace is its own strip. */
  lemma StripUnchanged(s: string)
    requires s == [] || (!IsSpace(s[0]) && !IsSpace(s[|s| - 1]))
    ensures Strip(s) == s
  {
    var r := Strip(s);
    var a :| TrimmedAt(s, r, a);
    if s != [] {
      assert a == 0;
      assert a + |r| == |s|;
    }
  }

  lemma RemoveAtExactMatch(s: string, phrase: string)
    requires phrase != [] && |phrase| <= |s| && s[..|phrase|] == phrase
    ensures RemoveAllIgnoreCase(s, phrase) == RemoveAllIgnoreCase(s[|phrase|..], phrase)
  {
    assert EqualsIgnoreCase(s[..|phrase|], phrase);
  }

  lemma RemoveFirstDiffers(s: string, phrase: string)
    requires phrase != [] && s != [] && LowerChar(s[0]) != LowerChar(phrase[0])
    ensures RemoveAllIgnoreCase(s, phrase) == [s[0]] + RemoveAllIgnoreCase(s[1..], phrase)
  {
    if |phrase| <= |s| {
      assert Lower(s[..|phrase|])[0] != Lower(phrase)[0];
    }
  }

  /** A character that can neither start a junk phrase nor be stripped or collapsed. */
  predicate Plain(c: char) {
    !IsSpace(c) && LowerChar(c) != 'b' && LowerChar(c) != 'h' && LowerChar(c) != 'm' && LowerChar(c) != 'p' && LowerChar(c) != 's'
  }

  /** `x Back to Bill y` */
  function BackToBillSample(x: char, y: char): string {
    [x, ' ', 'B', 'a', 'c', 'k', ' ', 't', 'o', ' ', 'B', 'i', 'l', 'l', ' ', y]
  }

  /** The letters of the sample that matter to each cleaning step. */
  lemma SampleFacts(x: char, y: char)
    requires Plain(x) && Plain(y)
    ensures var s := BackToBillSample(x, y);
      && '\n' !in s && '\t' !in s
      && (forall i :: 0 < i < |s| ==> !(s[i - 1] == ' ' && s[i] == ' '))
      && (forall i :: 0 <= i < |s| ==> LowerChar(s[i]) != 'h')
      && (forall i :: 0 <= i < |s| ==> LowerChar(s[i]) != 's')
      && (forall i :: 0 <= i < |s| ==> LowerChar(s[i]) != 'p')
      && (forall i :: 0 <= i < |s| ==> LowerChar(s[i]) != 'm')
  {
  }

  /** The first letters of the junk phrases, lower-cased. */
  lemma JunkHeads()
    ensures forall k :: 0 <= k < 4 ==>
      JunkPhrases[k] != [] && (LowerChar(JunkPhrases[k][0]) == 'm' || LowerChar(JunkPhrases[k][0]) == 's' || LowerChar(JunkPhrases[k][0]) == 'p')
  {
  }

  /** A prefix none of whose characters can start the phrase is kept as it is. */
  lemma {:induction false} KeepPrefix(s: string, phrase: string, n: nat)
    requires phrase != [] && n <= |s|
    requires forall i :: 0 <= i < n ==> LowerChar(s[i]) != LowerChar(phrase[0])
    ensures RemoveAllIgnoreCase(s, phrase) == s[..n] + RemoveAllIgnoreCase(s[n..], phrase)
    decreases n
  {
    if n == 0 {
      assert s[..0] + s[0..] == s[0..];
    } else {
      var t := s[1..];
      RemoveFirstDiffers(s, phrase);
      assert forall i :: 0 <= i < n - 1 ==> t[i] == s[i + 1];
      KeepPrefix(t, phrase, n - 1);
      assert t[n - 1..] == s[n..];
      assert s[..n] == [s[0]] + t[..n - 1];
    }
  }

  lemma RemoveBackToBill(x: char, y: char)
    requires Plain(x) && Plain(y)
    ensures RemoveAllIgnoreCase(BackToBillSample(x, y), JunkPhrases[4]) == [x, ' ', ' ', y]
  {
    var s := BackToBillSample(x, y);
    var p := JunkPhrases[4];
    KeepPrefix(s, p, 2);
    var s2 := s[2..];
    assert s2[..12] == p;
    RemoveAtExactMatch(s2, p);
    var tail := s2[12..];
    assert tail == [' ', y];
    NoPhraseStartUnchanged(tail, p);
    assert s[..2] == [x, ' '];
  }

  lemma RemovePhrasesStep(s: string, phrases: seq<string>)
    requires phrases != []
    ensures RemovePhrases(s, phrases) == RemovePhrases(RemoveAllIgnoreCase(s, phrases[0]), phrases[1..])
  {
  }

  /** No junk phrase has room in a string of three or four characters. */
  lemma ShortTextKeepsPhrases(s: string, k: nat)
    requires |s| <= 4 && k <= |JunkPhrases|
    ensures RemovePhrases(s, JunkPhrases[k..]) == s
    decreases |JunkPhrases| - k
  {
    if k < |JunkPhrases| {
      var ps := JunkPhrases[k..];
      assert |ps[0]| > 4;
      NoPhraseStartUnchanged(s, ps[0]);
      RemovePhrasesStep(s, ps);
      assert ps[1..] == JunkPhrases[k + 1..];
      ShortTextKeepsPhrases(s, k + 1);
    }
  }

  /** Phrases that leave the text unchanged can be skipped. */
  lemma {:induction false} SkipUnchangedPhrases(s: string, phrases: seq<string>, k: nat)
    requires k <= |phrases|
    requires forall i :: 0 <= i < k ==> RemoveAllIgnoreCase(s, phrases[i]) == s
    ensures RemovePhrases(s, phrases) == RemovePhrases(s, phrases[k..])
    decreases k
  {
    if k > 0 {
      assert RemoveAllIgnoreCase(s, phrases[0]) == s;
      SkipUnchangedPhrases(s, phrases[1..], k - 1);
      assert phrases[1..][k - 1..] == phrases[k..];
    }
  }

  lemma SampleKeepsPhrase(x: char, y: char, phrase: string)
    requires Plain(x) && Plain(y)
    requires phrase != [] && (LowerChar(phrase[0]) == 'm' || LowerChar(phrase[0]) == 's' || LowerChar(phrase[0]) == 'p')
    ensures RemoveAllIgnoreCase(BackToBillSample(x, y), phrase) == BackToBillSample(x, y)
  {
    SampleFacts(x, y);
    NoPhraseStartUnchanged(BackToBillSample(x, y), phrase);
  }

  lemma SampleKeepsFirstPhrases(x: char, y: char)
    requires Plain(x) && Plain(y)
    ensures forall i :: 0 <= i < 4 ==> RemoveAllIgnoreCase(BackToBillSample(x, y), JunkPhrases[i]) == BackToBillSample(x, y)
  {
    JunkHeads();
    forall i | 0 <= i < 4
      ensures RemoveAllIgnoreCase(BackToBillSample(x, y), JunkPhrases[i]) == BackToBillSample(x, y)
    {
      SampleKeepsPhrase(x, y, JunkPhrases[i]);
    }
  }

  /** The last junk phrase on its own. */
  lemma LastPhrase(s: string)
    ensures RemovePhrases(s, JunkPhrases[4..]) == RemoveAllIgnoreCase(s, JunkPhrases[4])
  {
    var rest := JunkPhrases[4..];
    assert rest[0] == JunkPhrases[4] && rest[1..] == [];
  }

  lemma FirstPassSteps(x: char, y: char)
    requires Plain(x) && Plain(y)
    ensures RemovePhrases(BackToBillSample(x, y), JunkPhrases) == [x, ' ', ' ', y]
  {
    var s := BackToBillSample(x, y);
    SampleKeepsFirstPhrases(x, y);
    SkipUnchangedPhrases(s, JunkPhrases, 4);
    LastPhrase(s);
    RemoveBackToBill(x, y);
  }

  /** The whitespace and breadcrumb passes leave the sample alone. */
  lemma FirstPassFront(x: char, y: char)
    requires Plain(x) && Plain(y)
    ensures RemoveBreadcrumbs(CollapseSpaces(CollapseBlankLines(BackToBillSample(x, y)))) == BackToBillSample(x, y)
  {
    var s := BackToBillSample(x, y);
    SampleFacts(x, y);
    NoNewlineUnchanged(s);
    SingleSpacedUnchanged(s);
    NoHomeUnchanged(s);
  }

  lemma FirstPass(x: char, y: char)
    requires Plain(x) && Plain(y)
    ensures CleanText(BackToBillSample(x, y)) == [x, ' ', ' ', y]
  {
    FirstPassFront(x, y);
    FirstPassSteps(x, y);
    StripUnchanged([x, ' ', ' ', y]);
  }

  lemma CollapseDoubleSpace(x: char, y: char)
    requires Plain(x) && Plain(y)
    ensures CollapseSpaces([x, ' ', ' ', y]) == [x, ' ', y]
  {
    var u := [x, ' ', ' ', y];
    assert !IsBlank(y);
    assert u[1..][1..][1..] == [y];
    assert PrefixRun([y], IsBlank) == 0;
    assert PrefixRun(u[1..], IsBlank) == 2;
    assert CollapseSpaces(u[1..]) == [' '] + CollapseSpaces(u[3..]);
  }

  lemma ShortNoHome(x: char, y: char)
    requires Plain(x) && Plain(y)
    ensures forall i :: 0 <= i < |[x, ' ', y]| ==> LowerChar([x, ' ', y][i]) != 'h'
  {
  }

  lemma SecondPassFront(x: char, y: char)
    requires Plain(x) && Plain(y)
    ensures RemoveBreadcrumbs(CollapseSpaces(CollapseBlankLines([x, ' ', ' ', y]))) == [x, ' ', y]
  {
    var u := [x, ' ', ' ', y];
    var v := [x, ' ', y];
    NoNewlineUnchanged(u);
    CollapseDoubleSpace(x, y);
    ShortNoHome(x, y);
    NoHomeUnchanged(v);
  }

  lemma SecondPass(x: char, y: char)
    requires Plain(x) && Plain(y)
    ensures CleanText([x, ' ', ' ', y]) == [x, ' ', y]
  {
    var v := [x, ' ', y];
    SecondPassFront(x, y);
    ShortTextKeepsPhrases(v, 0);
    assert JunkPhrases[0..] == JunkPhrases;
    StripUnchanged(v);
  }

  /**
   * `clean_text` is not idempotent: removing a phrase can leave two spaces side by side,
   * which only a second pass collapses.
   */
  lemma CleanTextNotIdempotent(x: char, y: char)
    requires Plain(x) && Plain(y)
    ensures CleanText(CleanText(BackToBillSample(x, y))) != CleanText(BackToBillSample(x, y))
  {
    FirstPass(x, y);
    SecondPass(x, y);
  }
}
