/**
 * The reporting loops both scrapers share: writing one text file per bill with
 * substantial text, and the per-source tally of the final summary. Both read the bill
 * dicts' current contents and change none of them.
 */
module Reporting {
  import opened Bills
  import O = Output

  /**
   * The file-writing loop of `save_results`: select the bills with substantial text, then
   * write each one's file under the name `fileName` gives it.
   */
  method WriteTextFiles(files: map<string, string>, bills: seq<BillRecord>, fileName: BillRecord -> string)
    returns (written: map<string, string>)
    ensures written == O.WriteTextFiles(files, bills, fileName)
  {
    var successful := O.SelectTextBills(bills);
    written := files;
    var i := 0;
    while i < |successful|
      invariant 0 <= i <= |successful|
      invariant written == O.WriteTextFiles(files, successful[..i], fileName)
    {
      var bill := successful[i];
      assert successful[..i + 1][..i] == successful[..i];
      written := written[fileName(bill) := O.TextFileContent(bill)];
      i := i + 1;
    }
    assert successful[..i] == successful;
    O.SelectedWriteSame(files, bills, fileName);
  }

  /**
   * `print_summary`: the count of each `text_source` (absent reads as `unknown`), in
   * order of first appearance, the number of bills with substantial text, and whether
   * listing the first five of those raises `KeyError` on a missing title.
   */
  method PrintSummary(bills: seq<BillRecord>) returns (sources: seq<O.SourceCount>, substantial: nat, raises: bool)
    ensures sources == O.SourceCounts(bills)
    ensures substantial == |O.SelectTextBills(bills)|
    ensures raises == O.ListingRaises(bills)
  {
    sources := [];
    var i := 0;
    while i < |bills|
      invariant 0 <= i <= |bills|
      invariant sources == O.SourceCounts(bills[..i])
    {
      assert bills[..i + 1][..i] == bills[..i];
      sources := O.Bump(sources, O.SourceKey(bills[i]));
      i := i + 1;
    }
    assert bills[..i] == bills;
    var selected := O.SelectTextBills(bills);
    substantial := |selected|;
    raises := false;
    var k := 0;
    while k < |selected| && k < O.ListedBills && !raises
      invariant 0 <= k <= |selected| && k <= O.ListedBills
      invariant raises <==> exists j :: 0 <= j < k && selected[j].title.None?
    {
      raises := selected[k].title.None?;
      k := k + 1;
    }
  }
}
