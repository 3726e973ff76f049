/** The series the bank distribution charts plot (`getChartData`): for the
    chosen case type and direction, each bank's count, keeping only banks
    with a positive count. */
module BankCharts {
  import opened Maybe
  import opened Seqs
  import opened Ranking

  datatype CaseType = Chargebacks | Representments
  datatype Direction = Received | Issued
  datatype BankType = IssuerBanks | AcquirerBanks

  datatype ChartPoint = ChartPoint(bank: string, value: nat)

  /** `data?.[bankType] || []`: the rows of one chart, none while the data is
      absent. */
  function Source(data: Option<BankDistribution>, bankType: BankType): seq<BankRow>
  {
    match data
    case None => []
    case Some(d) => if bankType == IssuerBanks then d.issuerBankData else d.acquirerBankData
  }

  /** The count the (type, direction) selection reads from a row. */
  function SelectedValue(row: BankRow, t: CaseType, d: Direction): nat
  {
    match (t, d)
    case (Chargebacks, Received) => row.receivedChargebacks
    case (Chargebacks, Issued) => row.issuedChargebacks
    case (Representments, Received) => row.receivedRepresentments
    case (Representments, Issued) => row.issuedRepresentments
  }

  /** The `map` step: one point per row, in row order. */
  function Points(rows: seq<BankRow>, t: CaseType, d: Direction): seq<ChartPoint>
  {
    seq(|rows|, i requires 0 <= i < |rows| => ChartPoint(rows[i].bank, SelectedValue(rows[i], t, d)))
  }

  function PositiveTest(): ChartPoint -> bool
  {
    (p: ChartPoint) => p.value > 0
  }

  /** `getChartData(bankType)`. */
  function ChartData(data: Option<BankDistribution>, bankType: BankType, t: CaseType, d: Direction): (r: seq<ChartPoint>)
    ensures |r| <= |Source(data, bankType)|
    ensures data.None? ==> r == []
  {
    Filter(Points(Source(data, bankType), t, d), PositiveTest())
  }

  /** A point is plotted iff some row has that bank and a positive selected
      count; points keep the rows' order. */
  lemma ChartDataIff(data: Option<BankDistribution>, bankType: BankType, t: CaseType, d: Direction, p: ChartPoint)
    ensures IsSubseq(ChartData(data, bankType, t, d), Points(Source(data, bankType), t, d))
    ensures p in ChartData(data, bankType, t, d) <==>
      p.value > 0 &&
      exists i :: 0 <= i < |Source(data, bankType)| &&
                  p == ChartPoint(Source(data, bankType)[i].bank, SelectedValue(Source(data, bankType)[i], t, d))
  {
    var rows := Source(data, bankType);
    var ps := Points(rows, t, d);
    FilterIsSubseq(ps, PositiveTest());
    if p.value > 0 && exists i :: 0 <= i < |rows| && p == ChartPoint(rows[i].bank, SelectedValue(rows[i], t, d)) {
      var i :| 0 <= i < |rows| && p == ChartPoint(rows[i].bank, SelectedValue(rows[i], t, d));
      assert ps[i] == p && PositiveTest()(ps[i]);
    }
    if p in ChartData(data, bankType, t, d) {
      var i :| 0 <= i < |ps| && ps[i] == p;
    }
  }

  /** On the server's distribution, only received chargebacks are ever
      plotted: every other selection is empty. */
  lemma OnlyReceivedChargebacks(s: Schema.Store, year: int, bankType: BankType, t: CaseType, d: Direction)
    requires BankDistributionData(s, year).Ok?
    requires t != Chargebacks || d != Received
    ensures ChartData(Some(BankDistributionData(s, year).value), bankType, t, d) == []
  {
    BankDistributionCounts(s, year);
    var rows := Source(Some(BankDistributionData(s, year).value), bankType);
    FilterNone(Points(rows, t, d), PositiveTest());
  }

  /** On the server's distribution, the received chargeback chart plots
      every bank row, with its count. */
  lemma ReceivedChargebacksPlotAll(s: Schema.Store, year: int, bankType: BankType)
    requires BankDistributionData(s, year).Ok?
    ensures var rows := Source(Some(BankDistributionData(s, year).value), bankType);
      ChartData(Some(BankDistributionData(s, year).value), bankType, Chargebacks, Received) == Points(rows, Chargebacks, Received)
  {
    BankDistributionCounts(s, year);
    var rows := Source(Some(BankDistributionData(s, year).value), bankType);
    FilterKeepsAll(Points(rows, Chargebacks, Received), PositiveTest());
  }
}
