/** The tabbed table of today's records by category on the dashboard: the
    category buttons with their counts, the free-text search over all fields,
    and the choice between the search result and the advanced filter
    panel's report. */
module CategoryTables {
  import opened Maybe
  import opened Seqs
  import opened Text
  import opened Json
  import opened Schema
  import AdvancedFilters

  /** The four lists the table receives; a list may be absent (`undefined`). */
  datatype CategoryData = CategoryData(
    receivedChargebacks: Option<seq<Item>>,
    issuedChargebacks: Option<seq<Item>>,
    receivedRepresentments: Option<seq<Item>>,
    issuedRepresentments: Option<seq<Item>>)

  function ListOf(d: CategoryData, c: Category): Option<seq<Item>>
  {
    match c
    case ReceivedChargeback => d.receivedChargebacks
    case IssuedChargeback => d.issuedChargebacks
    case ReceivedRepresentment => d.receivedRepresentments
    case IssuedRepresentment => d.issuedRepresentments
  }

  /** `categoryData[activeCategory] || []`. */
  function CurrentData(d: CategoryData, c: Category): (r: seq<Item>)
    ensures ListOf(d, c).None? ==> r == []
    ensures ListOf(d, c).Some? ==> r == ListOf(d, c).value
  {
    if ListOf(d, c).Some? then ListOf(d, c).value else []
  }

  /** The badge of a category button: `categoryData[key]?.length || 0`. */
  function CategoryCount(d: CategoryData, c: Category): (n: nat)
    ensures n == |CurrentData(d, c)|
    ensures ListOf(d, c).None? ==> n == 0
  {
    match ListOf(d, c)
    case None => 0
    case Some(list) => |list|
  }

  // ---------------------------------------------------------------------------
  // Search

  /** Some field of `item`, through `String(value).toLowerCase()`, contains
      the lower-case term. `null` fields read as the text "null". */
  predicate AnyFieldContains(item: Item, term: string)
  {
    exists k :: k in item && Contains(Lower(JsString(item[k])), Lower(term))
  }

  /** The search predicate: an empty term keeps every record. */
  predicate SearchMatches(item: Item, term: string)
  {
    term == "" || AnyFieldContains(item, term)
  }

  function SearchTest(term: string): Item -> bool
  {
    item => SearchMatches(item, term)
  }

  /** `filteredRecords`. */
  function FilteredRecords(current: seq<Item>, term: string): seq<Item>
  {
    Filter(current, SearchTest(term))
  }

  /** An empty search term keeps every record of the active category. */
  lemma EmptySearchKeepsAll(current: seq<Item>)
    ensures FilteredRecords(current, "") == current
  {
    FilterKeepsAll(current, SearchTest(""));
  }

  /** With a term, a record is kept iff some field contains it; the result
      keeps the input order. */
  lemma SearchIff(current: seq<Item>, term: string, x: Item)
    requires term != ""
    ensures IsSubseq(FilteredRecords(current, term), current)
    ensures x in FilteredRecords(current, term) <==> x in current && AnyFieldContains(x, term)
  {
    FilterIsSubseq(current, SearchTest(term));
    if x in current && AnyFieldContains(x, term) {
      var i :| 0 <= i < |current| && current[i] == x;
      assert SearchTest(term)(current[i]);
    }
  }

  /** The search matches `null` fields through their text: a record with a
      `null` field matches the term "nul". */
  lemma NullFieldMatchesNul(item: Item, k: string)
    requires k in item && item[k] == Null
    ensures SearchMatches(item, "nul")
  {
    assert Lower("null") == "null" && Lower("nul") == "nul";
    assert StartsWith("null", "nul");
    assert Contains(Lower(JsString(item[k])), Lower("nul"));
  }

  // ---------------------------------------------------------------------------
  // What the table shows

  /** `dataToDisplay`: the advanced filter report when the panel is open and
      the report is non-empty, the search result otherwise. */
  function DataToDisplay(showAdvanced: bool, report: seq<Item>, searched: seq<Item>): seq<Item>
  {
    if showAdvanced && |report| > 0 then report else searched
  }

  /** The table's state: the active tab, the search box, whether the panel is
      open, and the last list the panel reported (the parent's
      `filteredData`, initially empty). */
  datatype TableState = TableState(active: Category, term: string, showAdvanced: bool, report: seq<Item>)

  function Initial(): TableState
  {
    TableState(ReceivedChargeback, "", false, [])
  }

  function Display(d: CategoryData, st: TableState): seq<Item>
  {
    var current := CurrentData(d, st.active);
    DataToDisplay(st.showAdvanced, st.report, FilteredRecords(current, st.term))
  }

  /** The report belongs to the active tab: it is empty or a subsequence of
      the tab's records. */
  predicate ReportFits(d: CategoryData, st: TableState)
  {
    IsSubseq(st.report, CurrentData(d, st.active))
  }

  /** Whatever is shown is a subsequence of the active tab's records, as
      long as the report belongs to that tab. */
  lemma DisplayWithinCategory(d: CategoryData, st: TableState)
    requires ReportFits(d, st)
    ensures IsSubseq(Display(d, st), CurrentData(d, st.active))
  {
    FilterIsSubseq(CurrentData(d, st.active), SearchTest(st.term));
  }

  /** A panel report that came back empty shows the search result. */
  lemma EmptyReportShowsSearch(d: CategoryData, st: TableState)
    requires st.report == []
    ensures Display(d, st) == FilteredRecords(CurrentData(d, st.active), st.term)
  {
  }

  /** The panel reports an export of the active tab's records under its
      filters; the report then belongs to the tab. */
  function Reported(d: CategoryData, st: TableState, configs: seq<AdvancedFilters.FilterConfig>,
                    filters: AdvancedFilters.Filters, parseDate: string -> Option<int>): (r: TableState)
    ensures r.active == st.active && r.term == st.term && r.showAdvanced == st.showAdvanced
    ensures r.report == AdvancedFilters.Exported(CurrentData(d, st.active), configs, filters, parseDate)
    ensures ReportFits(d, r)
  {
    var current := CurrentData(d, st.active);
    AdvancedFilters.ExportedIff(current, configs, filters, parseDate, map[]);
    st.(report := AdvancedFilters.Exported(current, configs, filters, parseDate))
  }

  /** Clicking a category button as written: the tab changes, the panel's
      last report is kept. */
  function SelectCategoryAsWritten(st: TableState, c: Category): TableState
  {
    st.(active := c)
  }

  /** A report of one tab, kept across a switch to another tab, is shown
      under the other tab's title: the received chargeback `x` appears in the
      issued chargeback tab. */
  lemma StaleReportAfterSwitch(x: Item, y: Item)
    requires x != y
    ensures var d := CategoryData(Some([x]), Some([y]), None, None);
            var st := TableState(ReceivedChargeback, "", true, [x]);
            var after := SelectCategoryAsWritten(st, IssuedChargeback);
            ReportFits(d, st) && Display(d, after) == [x] && x !in CurrentData(d, after.active)
  {
    var d := CategoryData(Some([x]), Some([y]), None, None);
    var st := TableState(ReceivedChargeback, "", true, [x]);
    assert IsSubseq([x][1..], [x][1..]);
  }

  /** Clicking a category button, with the report cleared as the table
      requires: the new tab starts from its own records. */
  function SelectCategory(st: TableState, c: Category): (r: TableState)
    ensures r.active == c && r.term == st.term && r.showAdvanced == st.showAdvanced
    ensures r.report == []
  {
    st.(active := c, report := [])
  }

  /** Every operation of the table keeps the report with its tab. */
  lemma ReportStaysWithTab(d: CategoryData, st: TableState, c: Category, term: string,
                           configs: seq<AdvancedFilters.FilterConfig>, filters: AdvancedFilters.Filters,
                           parseDate: string -> Option<int>)
    requires ReportFits(d, st)
    ensures ReportFits(d, Initial())
    ensures ReportFits(d, SelectCategory(st, c))
    ensures ReportFits(d, st.(term := term))
    ensures ReportFits(d, st.(showAdvanced := !st.showAdvanced))
    ensures ReportFits(d, Reported(d, st, configs, filters, parseDate))
  {
  }
}
