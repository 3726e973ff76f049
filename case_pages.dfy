/** The statistics cards and the export of the received representments and
    issued chargebacks pages, which share their logic. The list shown is the
    advanced filter panel's report when it is non-empty and the fetched list
    otherwise. Amounts are exact reals. */
module CasePages {
  import opened Maybe
  import opened Seqs
  import Text
  import opened Json
  import AdvancedFilters

  datatype Page = ReceivedRepresentmentsPage | IssuedChargebacksPage

  /** `Array.isArray(list) ? list : []`; `None` is a list not fetched (yet). */
  function FetchedList(fetched: Option<seq<Item>>): seq<Item>
  {
    if fetched.Some? then fetched.value else []
  }

  /** `displayData`. */
  function DisplayData(report: seq<Item>, fetched: Option<seq<Item>>): seq<Item>
  {
    if |report| > 0 then report else FetchedList(fetched)
  }

  /** A report that is a subsequence of the fetched list, as the panel's
      always is, keeps the display within the fetched list. */
  lemma DisplayWithinFetched(report: seq<Item>, fetched: Option<seq<Item>>)
    requires IsSubseq(report, FetchedList(fetched))
    ensures IsSubseq(DisplayData(report, fetched), FetchedList(fetched))
  {
    SubseqRefl(FetchedList(fetched));
  }

  /** Filters that match nothing show the whole fetched list. */
  lemma NoMatchShowsAll(data: seq<Item>, configs: seq<AdvancedFilters.FilterConfig>,
                        filters: AdvancedFilters.Filters, parseDate: string -> Option<int>)
    requires AdvancedFilters.Exported(data, configs, filters, parseDate) == []
    ensures DisplayData(AdvancedFilters.Exported(data, configs, filters, parseDate), Some(data)) == data
  {
  }

  // ---------------------------------------------------------------------------
  // The cards

  /** `parseFloat(item.amountCp || '0')`; `None` is NaN. */
  function AmountOf(item: Item): Option<real>
  {
    var v := Field(item, "amountCp");
    ParseNumber(if Truthy(v) then v else Some(Str("0")))
  }

  /** The amounts of the items, in order. */
  function Amounts(items: seq<Item>): seq<Option<real>>
  {
    seq(|items|, i requires 0 <= i < |items| => AmountOf(items[i]))
  }

  /** The `reduce` sum from 0; a NaN makes the sum NaN. */
  function SumAmounts(amounts: seq<Option<real>>): (r: Option<real>)
    ensures r.Some? <==> forall i :: 0 <= i < |amounts| ==> amounts[i].Some?
  {
    if amounts == [] then Some(0.0)
    else
      var rest := SumAmounts(amounts[1..]);
      assert forall i :: 1 <= i < |amounts| ==> amounts[i] == amounts[1..][i - 1];
      if amounts[0].None? || rest.None? then None else Some(amounts[0].value + rest.value)
  }

  /** Total Amount: the sum over the items' amounts. */
  function TotalAmount(items: seq<Item>): Option<real>
  {
    SumAmounts(Amounts(items))
  }

  /** The total is a number iff every amount is. */
  lemma TotalAmountDefined(items: seq<Item>)
    ensures TotalAmount(items).Some? <==> forall i :: 0 <= i < |items| ==> AmountOf(items[i]).Some?
  {
    var amounts := Amounts(items);
    assert forall i :: 0 <= i < |items| ==> amounts[i] == AmountOf(items[i]);
  }

  /** An item without an amount, or with an empty one, adds nothing. */
  lemma MissingAmountIsZero(item: Item)
    requires !Truthy(Field(item, "amountCp"))
    ensures AmountOf(item) == Some(0.0)
  {
    Text.ParseZero();
  }

  function CentsSum(cents: seq<int>): int
  {
    if cents == [] then 0 else cents[0] + CentsSum(cents[1..])
  }

  /** The item's amount is the text of `cents`, or missing and `cents` is 0. */
  predicate Rendered(item: Item, cents: int)
  {
    if Truthy(Field(item, "amountCp")) then Field(item, "amountCp") == Some(Str(Text.CentsText(cents)))
    else cents == 0
  }

  lemma RenderedAmount(item: Item, cents: int)
    requires Rendered(item, cents)
    ensures AmountOf(item) == Some(cents as real / 100.0)
  {
    if Truthy(Field(item, "amountCp")) {
      AmountValue(cents);
    } else {
      MissingAmountIsZero(item);
    }
  }

  lemma AddCents(c: int, rest: int)
    ensures c as real / 100.0 + rest as real / 100.0 == (c + rest) as real / 100.0
  {
  }

  /** Summing amounts of whole cents sums the cents. */
  lemma {:induction false} SumOfCents(amounts: seq<Option<real>>, cents: seq<int>)
    requires |amounts| == |cents|
    requires forall i :: 0 <= i < |amounts| ==> amounts[i] == Some(cents[i] as real / 100.0)
    ensures SumAmounts(amounts) == Some(CentsSum(cents) as real / 100.0)
  {
    if amounts != [] {
      var tail, tailCents := amounts[1..], cents[1..];
      assert forall i :: 0 <= i < |tail| ==> tail[i] == amounts[i + 1] && tailCents[i] == cents[i + 1];
      SumOfCents(tail, tailCents);
      AddCents(cents[0], CentsSum(tailCents));
    }
  }

  /** Over amounts rendered from integer cents, with missing amounts as 0
      cents, the total is the exact sum in units. */
  lemma TotalOfCents(items: seq<Item>, cents: seq<int>)
    requires |items| == |cents|
    requires forall i :: 0 <= i < |items| ==> Rendered(items[i], cents[i])
    ensures TotalAmount(items) == Some(CentsSum(cents) as real / 100.0)
  {
    RenderedAmounts(items, cents);
    SumOfCents(Amounts(items), cents);
  }

  lemma RenderedAmounts(items: seq<Item>, cents: seq<int>)
    requires |items| == |cents|
    requires forall i :: 0 <= i < |items| ==> Rendered(items[i], cents[i])
    ensures forall i :: 0 <= i < |items| ==> Amounts(items)[i] == Some(cents[i] as real / 100.0)
  {
    forall i | 0 <= i < |items|
      ensures Amounts(items)[i] == Some(cents[i] as real / 100.0)
    {
      RenderedAmount(items[i], cents[i]);
    }
  }

  /** `processing === 'VISA'`. */
  function VisaTest(): Item -> bool
  {
    (item: Item) => Field(item, "processing") == Some(Str("VISA"))
  }

  function VisaCases(items: seq<Item>): (n: nat)
    ensures n <= |items|
  {
    |Filter(items, VisaTest())|
  }

  /** No VISA item counts 0; all-VISA items count them all. */
  lemma VisaCasesBounds(items: seq<Item>)
    ensures (forall i :: 0 <= i < |items| ==> Field(items[i], "processing") != Some(Str("VISA"))) ==> VisaCases(items) == 0
    ensures (forall i :: 0 <= i < |items| ==> Field(items[i], "processing") == Some(Str("VISA"))) ==> VisaCases(items) == |items|
  {
    if forall i :: 0 <= i < |items| ==> Field(items[i], "processing") != Some(Str("VISA")) {
      FilterNone(items, VisaTest());
    }
    if forall i :: 0 <= i < |items| ==> Field(items[i], "processing") == Some(Str("VISA")) {
      FilterKeepsAll(items, VisaTest());
    }
  }

  /** The average card: the total over the count, or a fixed zero label when
      nothing is shown. */
  datatype AverageCard = Average(amount: Option<real>) | ZeroLabel(text: string)

  /** The average card's zero label, a euro sign and "0.00". */
  const EuroZero: string := "\U{20AC}0.00"

  /** The label each page writes: the received representments page has the
      euro sign's three UTF-8 bytes read as Windows-1252 characters. */
  function ZeroLabelAsWritten(page: Page): string
  {
    match page
    case ReceivedRepresentmentsPage => "\U{00E2}\U{201A}\U{00AC}0.00"
    case IssuedChargebacksPage => EuroZero
  }

  /** The Avg Amount card for `count` shown items summing to `total`. */
  function AverageOf(total: Option<real>, count: nat, zero: string): (card: AverageCard)
    ensures card.ZeroLabel? <==> count == 0
    ensures card.ZeroLabel? ==> card.text == zero
    ensures card.Average? ==> (card.amount.Some? <==> total.Some?)
    ensures card.Average? && card.amount.Some? ==> card.amount.value * count as real == total.value
  {
    if count > 0 then
      if total.Some? then
        QuotientTimesDivisor(total.value, count as real);
        Average(Some(total.value / count as real))
      else Average(None)
    else ZeroLabel(zero)
  }

  lemma QuotientTimesDivisor(t: real, n: real)
    requires n > 0.0
    ensures t / n * n == t
  {
  }

  datatype Stats = Stats(totalCases: nat, totalAmount: Option<real>, visaCases: nat, average: AverageCard)

  function StatsWith(report: seq<Item>, fetched: Option<seq<Item>>, zero: string): Stats
  {
    var shown := DisplayData(report, fetched);
    var total := TotalAmount(shown);
    Stats(|shown|, total, VisaCases(shown), AverageOf(total, |shown|, zero))
  }

  /** The four cards of either page, with the zero label as written. */
  function PageStatsAsWritten(page: Page, report: seq<Item>, fetched: Option<seq<Item>>): Stats
  {
    StatsWith(report, fetched, ZeroLabelAsWritten(page))
  }

  /** The four cards, with the euro zero label on both pages. */
  function PageStats(report: seq<Item>, fetched: Option<seq<Item>>): (st: Stats)
    ensures st.totalCases == |DisplayData(report, fetched)|
    ensures st.totalAmount == TotalAmount(DisplayData(report, fetched))
    ensures st.visaCases <= st.totalCases
    ensures st.average == ZeroLabel(EuroZero) <==> st.totalCases == 0
    ensures st.average == AverageOf(st.totalAmount, st.totalCases, EuroZero)
  {
    var shown := DisplayData(report, fetched);
    var total := TotalAmount(shown);
    var card := AverageOf(total, |shown|, EuroZero);
    Stats(|shown|, total, VisaCases(shown), card)
  }

  /** The received representments page shows a garbled zero label; apart
      from that label, both pages as written show the corrected cards. */
  lemma GarbledZeroLabel(page: Page, report: seq<Item>, fetched: Option<seq<Item>>)
    ensures ZeroLabelAsWritten(ReceivedRepresentmentsPage) != EuroZero
    ensures ZeroLabelAsWritten(IssuedChargebacksPage) == EuroZero
    ensures |DisplayData(report, fetched)| > 0 || page == IssuedChargebacksPage ==>
      PageStatsAsWritten(page, report, fetched) == PageStats(report, fetched)
    ensures DisplayData(report, fetched) == [] && page == ReceivedRepresentmentsPage ==>
      PageStatsAsWritten(page, report, fetched).average != PageStats(report, fetched).average
  {
    assert ZeroLabelAsWritten(ReceivedRepresentmentsPage)[0] != EuroZero[0];
  }

  // ---------------------------------------------------------------------------
  // Export

  /** `handleExport`: the list to export is chosen as the display is, and no
      file is written (`None`) when it is empty. */
  function ExportFile(report: seq<Item>, fetched: Option<seq<Item>>): (file: Option<seq<Item>>)
    ensures file.Some? <==> DisplayData(report, fetched) != []
    ensures file.Some? ==> file.value == DisplayData(report, fetched)
  {
    var toExport := if |report| > 0 then report else FetchedList(fetched);
    if |toExport| > 0 then Some(toExport) else None
  }
}
