/** Time-windowed counts and sums over the four tables: `getDailyVolumes`,
    `getVolumeHistory`, `getYearlyData`, `getAnnualStatistics` and
    `getMonthlyYearlyStatistics`. */
module Aggregation {
  import opened Maybe
  import opened Seqs
  import opened Calendar
  import opened Schema
  import Text

  // ---------------------------------------------------------------------------
  // The day window

  /** `gte(dateTraitementRpa, startOfDay)` and `lte(dateTraitementRpa, endOfDay)`. */
  predicate InDayWindow(r: Record, date: int)
  {
    StartOfDay(date) <= r.dateTraitementRpa <= EndOfDay(date)
  }

  function WindowTest(date: int): Record -> bool
  {
    (x: Record) => InDayWindow(x, date)
  }

  /** The reference notion: the record was processed on the day of `date`. */
  function OnDayTest(date: int): Record -> bool
  {
    (x: Record) => DayOf(x.dateTraitementRpa) == DayOf(date)
  }

  /** The rows of one table inside the day window, in table order. */
  function InDay(rs: seq<Record>, date: int): (r: seq<Record>)
    ensures forall x :: x in r <==> x in rs && DayOf(x.dateTraitementRpa) == DayOf(date)
  {
    Filter(rs, WindowTest(date))
  }

  /** The window test and the calendar-day test select the same rows. */
  lemma InDayByDay(rs: seq<Record>, date: int)
    ensures InDay(rs, date) == Filter(rs, OnDayTest(date))
  {
    forall i | 0 <= i < |rs|
      ensures WindowTest(date)(rs[i]) == OnDayTest(date)(rs[i])
    {
      DayWindowIff(rs[i].dateTraitementRpa, date);
    }
    FilterCongruent(rs, WindowTest(date), OnDayTest(date));
  }

  function Cents(r: Record): int
  {
    r.amountCp
  }

  /** `sum(amountCp)` in cents. */
  function SumAmounts(rs: seq<Record>): int
  {
    SumOf(rs, Cents)
  }

  // ---------------------------------------------------------------------------
  // getDailyVolumes

  /** One `{ count, amount }` entry: `amount` is the decimal text PostgreSQL
      returns for the sum, or "0" when the sum is NULL (no rows). */
  datatype Volume = Volume(count: nat, amount: string)

  function DayVolume(rs: seq<Record>, date: int): (v: Volume)
    ensures v.count == |InDay(rs, date)|
    ensures v.amount == "0" <==> v.count == 0
    ensures v.count > 0 ==> v.amount == Text.CentsText(SumAmounts(InDay(rs, date)))
  {
    var rows := InDay(rs, date);
    if |rows| == 0 then Volume(0, "0")
    else Volume(|rows|, Text.CentsText(SumAmounts(rows)))
  }

  /** The amount text reads back, with `parseFloat`, as the summed amounts
      (zero for the "0" of an empty window). */
  lemma DayVolumeAmount(rs: seq<Record>, date: int)
    ensures Text.ParseFloat(DayVolume(rs, date).amount) == Some(SumAmounts(InDay(rs, date)) as real / 100.0)
  {
    var rows := InDay(rs, date);
    var v := DayVolume(rs, date);
    if rows == [] {
      assert v.amount == "0";
    } else {
      assert v.amount == Text.CentsText(SumAmounts(rows));
    }
    Text.ParseAmountOrZero(v.amount, rows == [], SumAmounts(rows));
  }

  datatype DailyVolumes = DailyVolumes(
    receivedChargebacks: Volume,
    issuedRepresentments: Volume,
    issuedChargebacks: Volume,
    receivedRepresentments: Volume)

  function VolumeFor(d: DailyVolumes, c: Category): Volume
  {
    match c
    case ReceivedChargeback => d.receivedChargebacks
    case IssuedRepresentment => d.issuedRepresentments
    case IssuedChargeback => d.issuedChargebacks
    case ReceivedRepresentment => d.receivedRepresentments
  }

  function GetDailyVolumes(s: Store, date: int): DailyVolumes
  {
    DailyVolumes(
      DayVolume(s.receivedChargebacks, date),
      DayVolume(s.issuedRepresentments, date),
      DayVolume(s.issuedChargebacks, date),
      DayVolume(s.receivedRepresentments, date))
  }

  /** `getDailyVolumes(date)` as called: rejected when the day's window
      leaves the time range, otherwise the four volumes of that day. */
  function DailyVolumesQuery(s: Store, date: int): (r: Result<DailyVolumes>)
    ensures r.Ok? <==> DayBoundsValid(date)
    ensures r.Ok? ==> r.value == GetDailyVolumes(s, date)
  {
    if !DayBoundsValid(date) then Err(InvalidTimeValue) else Ok(GetDailyVolumes(s, date))
  }

  function DailyVolumeFor(s: Store, date: int, c: Category): (v: Volume)
    ensures v == VolumeFor(GetDailyVolumes(s, date), c)
  {
    DayVolume(Collection(s, c), date)
  }

  /** Per category: the count is the number of rows processed that day, and
      the amount is the text of their summed `amountCp`, or "0" when there are
      none. */
  lemma DailyVolumesByDay(s: Store, date: int, c: Category)
    ensures var v := VolumeFor(GetDailyVolumes(s, date), c);
      var rows := Filter(Collection(s, c), OnDayTest(date));
      && v.count == |rows|
      && v.amount == if rows == [] then "0" else Text.CentsText(SumAmounts(rows))
  {
    var v := DailyVolumeFor(s, date, c);
    InDayByDay(Collection(s, c), date);
  }

  // ---------------------------------------------------------------------------
  // getVolumeHistory

  datatype HistoryEntry = HistoryEntry(
    day: int,
    receivedChargebacks: nat,
    issuedRepresentments: nat,
    issuedChargebacks: nat,
    receivedRepresentments: nat)

  /** Number of rows of one table in the day window of `date`. */
  function DayCount(rs: seq<Record>, date: int): nat
  {
    |InDay(rs, date)|
  }

  /** The entry pushed for `date`: its calendar day and the four daily counts. */
  function HistoryEntryFor(s: Store, date: int): (e: HistoryEntry)
    ensures e.day == DayOf(date)
  {
    HistoryEntry(DayOf(date),
                 DayCount(s.receivedChargebacks, date), DayCount(s.issuedRepresentments, date),
                 DayCount(s.issuedChargebacks, date), DayCount(s.receivedRepresentments, date))
  }

  /** The entry's counts are those of `getDailyVolumes(date)`, that is the
      number of each table's rows processed on the entry's day. */
  lemma HistoryEntryCounts(s: Store, date: int)
    ensures var e := HistoryEntryFor(s, date);
      var d := GetDailyVolumes(s, date);
      && e.receivedChargebacks == d.receivedChargebacks.count
      && e.issuedRepresentments == d.issuedRepresentments.count
      && e.issuedChargebacks == d.issuedChargebacks.count
      && e.receivedRepresentments == d.receivedRepresentments.count
      && e.receivedChargebacks == |Filter(s.receivedChargebacks, OnDayTest(date))|
      && e.issuedRepresentments == |Filter(s.issuedRepresentments, OnDayTest(date))|
      && e.issuedChargebacks == |Filter(s.issuedChargebacks, OnDayTest(date))|
      && e.receivedRepresentments == |Filter(s.receivedRepresentments, OnDayTest(date))|
  {
    InDayByDay(s.receivedChargebacks, date);
    InDayByDay(s.issuedRepresentments, date);
    InDayByDay(s.issuedChargebacks, date);
    InDayByDay(s.receivedRepresentments, date);
  }

  const InvalidTimeValue: string := "Invalid time value"

  /** `getVolumeHistory(days)` at clock reading `now`: one entry per day from
      `days` days ago up to yesterday. A start date outside the ECMAScript
      time range makes every date invalid and the ISO rendering throws. */
  method VolumeHistory(s: Store, now: int, days: int) returns (r: Result<seq<HistoryEntry>>)
    requires ValidTime(now)
    ensures r.Err? <==> days > 0 && !ValidTime(now - days * MsPerDay)
    ensures r.Ok? ==> |r.value| == (if days > 0 then days else 0)
    ensures r.Ok? ==> forall i :: 0 <= i < |r.value| ==>
      r.value[i] == HistoryEntryFor(s, now - days * MsPerDay + i * MsPerDay)
    ensures r.Ok? ==> forall i :: 0 <= i < |r.value| ==> r.value[i].day == DayOf(now) - days + i
    ensures r.Ok? && days > 0 ==> r.value[|r.value| - 1].day == DayOf(now) - 1
  {
    var start := now - days * MsPerDay;
    var results: seq<HistoryEntry> := [];
    var i := 0;
    while i < days
      invariant 0 <= i <= (if days > 0 then days else 0)
      invariant |results| == i
      invariant forall k :: 0 <= k < i ==> results[k] == HistoryEntryFor(s, start + k * MsPerDay)
      invariant i > 0 ==> ValidTime(start)
    {
      var date := start + i * MsPerDay;
      if !ValidTime(date) {
        return Err(InvalidTimeValue);
      }
      results := results + [HistoryEntryFor(s, date)];
      i := i + 1;
    }
    forall k | 0 <= k < i
      ensures results[k].day == DayOf(now) - days + k
    {
      DayOfShift(start, k);
      DayOfShift(now, -days);
    }
    return Ok(results);
  }

  // ---------------------------------------------------------------------------
  // getYearlyData

  /** `bank === 'all' ? undefined : bank`, then used only when truthy: the
      empty string disables the bank condition too. */
  predicate BankFilterActive(bank: string)
  {
    bank != "all" && bank != ""
  }

  /** `DATE(dateTraitementRpa)` within the two ISO dates, and the acquirer
      condition when active. */
  predicate InPeriod(r: Record, startDay: int, endDay: int, bank: string)
  {
    startDay <= DayOf(r.dateTraitementRpa) <= endDay
    && (BankFilterActive(bank) ==> r.acquirer == Some(bank))
  }

  function PeriodTest(startDay: int, endDay: int, bank: string): Record -> bool
  {
    (x: Record) => InPeriod(x, startDay, endDay, bank)
  }

  function Selected(rs: seq<Record>, startDay: int, endDay: int, bank: string): seq<Record>
  {
    Filter(rs, PeriodTest(startDay, endDay, bank))
  }

  /** `count(*)` and `sum(amountCp)` (NULL taken as 0) of one table. */
  datatype CountAmount = CountAmount(count: nat, amount: int)

  function PeriodTotals(rs: seq<Record>, startDay: int, endDay: int, bank: string): (t: CountAmount)
    ensures t.count <= |rs|
    ensures t.count == 0 ==> t.amount == 0
  {
    var sel := Selected(rs, startDay, endDay, bank);
    EmptySum(sel);
    CountAmount(|sel|, SumAmounts(sel))
  }

  lemma EmptySum(rs: seq<Record>)
    ensures |rs| == 0 ==> SumAmounts(rs) == 0
  {
  }

  /** A table is counted in full exactly when every row is in the period. */
  lemma {:induction false} PeriodCountsAll(rs: seq<Record>, startDay: int, endDay: int, bank: string)
    ensures PeriodTotals(rs, startDay, endDay, bank).count == |rs|
      <==> forall i :: 0 <= i < |rs| ==> InPeriod(rs[i], startDay, endDay, bank)
  {
    if rs != [] {
      PeriodCountsAll(rs[1..], startDay, endDay, bank);
      if InPeriod(rs[0], startDay, endDay, bank) {
        assert forall i :: 1 <= i < |rs| ==> rs[1..][i - 1] == rs[i];
      } else {
        assert |Selected(rs[1..], startDay, endDay, bank)| <= |rs[1..]|;
      }
    }
  }

  datatype YearlyData = YearlyData(
    totalCases: nat,
    totalAmount: int,
    receivedChargebacks: CountAmount,
    issuedRepresentments: CountAmount,
    issuedChargebacks: CountAmount,
    receivedRepresentments: CountAmount)

  function TotalsFor(y: YearlyData, c: Category): CountAmount
  {
    match c
    case ReceivedChargeback => y.receivedChargebacks
    case IssuedRepresentment => y.issuedRepresentments
    case IssuedChargeback => y.issuedChargebacks
    case ReceivedRepresentment => y.receivedRepresentments
  }

  /** All rows of the four tables, in query order. */
  function AllRecords(s: Store): seq<Record>
  {
    s.receivedChargebacks + s.issuedRepresentments + s.issuedChargebacks + s.receivedRepresentments
  }

  /** `getYearlyData(startDate, endDate, bank)`: `toISOString` throws on a
      date outside the ECMAScript range. */
  function YearlyDataOf(s: Store, startDate: int, endDate: int, bank: string): (r: Result<YearlyData>)
    ensures r.Ok? <==> ValidTime(startDate) && ValidTime(endDate)
  {
    if !ValidTime(startDate) || !ValidTime(endDate) then Err(InvalidTimeValue)
    else
      var a, b := DayOf(startDate), DayOf(endDate);
      var rcb := PeriodTotals(s.receivedChargebacks, a, b, bank);
      var ire := PeriodTotals(s.issuedRepresentments, a, b, bank);
      var icb := PeriodTotals(s.issuedChargebacks, a, b, bank);
      var rre := PeriodTotals(s.receivedRepresentments, a, b, bank);
      Ok(YearlyData(rcb.count + ire.count + icb.count + rre.count,
                    rcb.amount + ire.amount + icb.amount + rre.amount,
                    rcb, ire, icb, rre))
  }

  /** Each table's entry is its own period count and sum. */
  lemma YearlyDataPerTable(s: Store, startDate: int, endDate: int, bank: string, c: Category)
    requires ValidTime(startDate) && ValidTime(endDate)
    ensures TotalsFor(YearlyDataOf(s, startDate, endDate, bank).value, c)
      == PeriodTotals(Collection(s, c), DayOf(startDate), DayOf(endDate), bank)
  {
  }

  /** The totals are a count and a sum over all four tables at once. */
  lemma YearlyTotalsOverAllTables(s: Store, startDate: int, endDate: int, bank: string)
    requires ValidTime(startDate) && ValidTime(endDate)
    ensures var y := YearlyDataOf(s, startDate, endDate, bank).value;
      var sel := Selected(AllRecords(s), DayOf(startDate), DayOf(endDate), bank);
      y.totalCases == |sel| && y.totalAmount == SumAmounts(sel)
  {
    var p := PeriodTest(DayOf(startDate), DayOf(endDate), bank);
    var a, b, c, d := s.receivedChargebacks, s.issuedRepresentments, s.issuedChargebacks, s.receivedRepresentments;
    FilterAppend(a + b + c, d, p);
    FilterAppend(a + b, c, p);
    FilterAppend(a, b, p);
    SumOfAppend(Filter(a + b + c, p), Filter(d, p), Cents);
    SumOfAppend(Filter(a + b, p), Filter(c, p), Cents);
    SumOfAppend(Filter(a, p), Filter(b, p), Cents);
  }

  /** With a bank named, every counted row has that acquirer; "all" and ""
      both count every bank. */
  lemma BankCondition(rs: seq<Record>, startDay: int, endDay: int, bank: string)
    ensures BankFilterActive(bank) ==>
      forall x :: x in Selected(rs, startDay, endDay, bank) ==> x.acquirer == Some(bank)
    ensures Selected(rs, startDay, endDay, "") == Selected(rs, startDay, endDay, "all")
  {
    FilterCongruent(rs, PeriodTest(startDay, endDay, ""), PeriodTest(startDay, endDay, "all"));
  }

  // ---------------------------------------------------------------------------
  // getAnnualStatistics

  /** How a quotient by a positive number compares with 0, 1 and -1. */
  lemma QuotientSign(d: real, p: real)
    requires p > 0.0
    ensures d / p > 0.0 <==> d > 0.0
    ensures d / p == 0.0 <==> d == 0.0
    ensures d >= -p ==> d / p >= -1.0
    ensures d == p ==> d / p == 1.0
    ensures d == -p ==> d / p == -1.0
  {
    var q := d / p;
    assert q * p == d;
    if d >= -p {
      assert (q + 1.0) * p == d + p;
    }
  }

  /** `((cur - prev) / prev) * 100` when the previous total is positive, else 0. */
  function Trend(cur: nat, prev: nat): (t: real)
    ensures prev == 0 ==> t == 0.0
    ensures t >= -100.0
    ensures t == 0.0 <==> prev == 0 || cur == prev
    ensures t > 0.0 <==> prev > 0 && cur > prev
    ensures prev > 0 && cur == 2 * prev ==> t == 100.0
    ensures prev > 0 && cur == 0 ==> t == -100.0
  {
    if prev > 0 then
      var d, p := (cur - prev) as real, prev as real;
      QuotientSign(d, p);
      (d / p) * 100.0
    else 0.0
  }

  /** `new Date(year, 0, 1)` and `new Date(year, 11, 31, 23, 59, 59)`. */
  function YearWindowStart(year: int): int
  {
    LocalDay(year, 0, 1) * MsPerDay
  }

  function YearWindowEnd(year: int): int
  {
    LocalDay(year, 11, 31) * MsPerDay + 86_399_000
  }

  /** The window bounds fall on the days of their `Date` arguments. */
  lemma YearWindowBounds(year: int)
    ensures DayOf(YearWindowStart(year)) == LocalDay(year, 0, 1)
    ensures DayOf(YearWindowEnd(year)) == LocalDay(year, 11, 31)
  {
    DayOfInstant(LocalDay(year, 0, 1), 0);
    DayOfInstant(LocalDay(year, 11, 31), 86_399_000);
  }

  /** For a year the `Date` constructor takes literally, the window covers
      exactly that year's days. */
  lemma YearWindowDays(year: int)
    requires FullYear(year) == year
    ensures DayOf(YearWindowStart(year)) == YearStart(year)
    ensures DayOf(YearWindowEnd(year)) == YearStart(year + 1) - 1
  {
    YearWindowBounds(year);
    MonthsTileYear(year, 1);
    YearStep(year);
    MonthStep(year, 12);
  }

  datatype AnnualRow = AnnualRow(
    year: int,
    bank: string,
    totalCases: nat,
    totalAmount: int,
    receivedChargebacks: CountAmount,
    issuedRepresentments: CountAmount,
    issuedChargebacks: CountAmount,
    receivedRepresentments: CountAmount,
    trend: real)

  /** `getAnnualStatistics(year, bank)`: one row for the year, compared with
      the year before; any error yields the empty list. */
  function AnnualStatistics(s: Store, year: int, bank: string): (r: seq<AnnualRow>)
    ensures |r| <= 1
    ensures |r| == 1 <==> ValidTime(YearWindowStart(year)) && ValidTime(YearWindowEnd(year))
                          && ValidTime(YearWindowStart(year - 1)) && ValidTime(YearWindowEnd(year - 1))
    ensures |r| == 1 ==>
      var cur := YearlyDataOf(s, YearWindowStart(year), YearWindowEnd(year), bank).value;
      var prev := YearlyDataOf(s, YearWindowStart(year - 1), YearWindowEnd(year - 1), bank).value;
      && r[0].year == year
      && r[0].bank == (if bank == "all" then "All Banks" else bank)
      && r[0].totalCases == cur.totalCases && r[0].totalAmount == cur.totalAmount
      && r[0].receivedChargebacks == cur.receivedChargebacks
      && r[0].issuedRepresentments == cur.issuedRepresentments
      && r[0].issuedChargebacks == cur.issuedChargebacks
      && r[0].receivedRepresentments == cur.receivedRepresentments
      && r[0].trend == Trend(cur.totalCases, prev.totalCases)
  {
    var cur := YearlyDataOf(s, YearWindowStart(year), YearWindowEnd(year), bank);
    var prev := YearlyDataOf(s, YearWindowStart(year - 1), YearWindowEnd(year - 1), bank);
    if cur.Err? || prev.Err? then []
    else
      var c := cur.value;
      [AnnualRow(year, if bank == "all" then "All Banks" else bank,
                 c.totalCases, c.totalAmount,
                 c.receivedChargebacks, c.issuedRepresentments, c.issuedChargebacks, c.receivedRepresentments,
                 Trend(c.totalCases, prev.value.totalCases))]
  }

  /** For a year that `new Date(year, ...)` does not reinterpret (any year
      outside 0 to 99), the row counts exactly the rows processed during that
      calendar year, over all four tables. */
  lemma AnnualCountsCalendarYear(s: Store, year: int, bank: string)
    requires FullYear(year) == year
    requires |AnnualStatistics(s, year, bank)| == 1
    ensures var sel := Selected(AllRecords(s), YearStart(year), YearStart(year + 1) - 1, bank);
      AnnualStatistics(s, year, bank)[0].totalCases == |sel|
      && AnnualStatistics(s, year, bank)[0].totalAmount == SumAmounts(sel)
  {
    YearWindowDays(year);
    YearlyTotalsOverAllTables(s, YearWindowStart(year), YearWindowEnd(year), bank);
  }

  // ---------------------------------------------------------------------------
  // getMonthlyYearlyStatistics

  datatype Mode = Monthly | Yearly

  /** `{ count, amountCp, amountOrigine }` of one series point; the reported
      `amountOrigine` is `amountCp * 1.1`, not the stored column. */
  datatype SeriesAmounts = SeriesAmounts(count: nat, amountCp: int, amountOrigine: real)

  function SeriesOf(t: CountAmount): (a: SeriesAmounts)
    ensures a.count == t.count && a.amountCp == t.amount
    ensures a.amountOrigine * 10.0 == a.amountCp as real * 11.0
  {
    SeriesAmounts(t.count, t.amount, t.amount as real * 1.1)
  }

  datatype PeriodStats = PeriodStats(
    year: int,
    month: Option<int>,
    receivedChargebacks: SeriesAmounts,
    issuedChargebacks: SeriesAmounts,
    receivedRepresentments: SeriesAmounts,
    issuedRepresentments: SeriesAmounts)

  function StatsOf(year: int, month: Option<int>, d: YearlyData): PeriodStats
  {
    PeriodStats(year, month, SeriesOf(d.receivedChargebacks), SeriesOf(d.issuedChargebacks),
                SeriesOf(d.receivedRepresentments), SeriesOf(d.issuedRepresentments))
  }

  /** `new Date(year, month - 1, 1)` and `new Date(year, month, 0, 23, 59, 59)`. */
  function MonthWindowStart(year: int, month: int): int
  {
    LocalDay(year, month - 1, 1) * MsPerDay
  }

  function MonthWindowEnd(year: int, month: int): int
  {
    LocalDay(year, month, 0) * MsPerDay + 86_399_000
  }

  /** The point for one window of the series. */
  function PeriodPoint(s: Store, year: int, month: Option<int>, startDate: int, endDate: int): (r: Result<PeriodStats>)
    ensures r.Ok? <==> ValidTime(startDate) && ValidTime(endDate)
    ensures r.Ok? ==> r.value.year == year && r.value.month == month
  {
    var d := YearlyDataOf(s, startDate, endDate, "all");
    if d.Err? then Err(d.error) else Ok(StatsOf(year, month, d.value))
  }

  function YearPoint(s: Store, year: int): Result<PeriodStats>
  {
    PeriodPoint(s, year, None, YearWindowStart(year), YearWindowEnd(year))
  }

  function MonthPoint(s: Store, year: int, month: int): Result<PeriodStats>
  {
    PeriodPoint(s, year, Some(month), MonthWindowStart(year, month), MonthWindowEnd(year, month))
  }

  /** The loop shared by both branches: one point per key, in key order; the
      first point that fails aborts the whole series. */
  method CollectPoints(point: int -> Result<PeriodStats>, keys: seq<int>) returns (r: Result<seq<PeriodStats>>)
    ensures r.Ok? <==> forall i :: 0 <= i < |keys| ==> point(keys[i]).Ok?
    ensures r.Ok? ==> |r.value| == |keys| && forall i :: 0 <= i < |keys| ==> r.value[i] == point(keys[i]).value
  {
    var results: seq<PeriodStats> := [];
    var i := 0;
    while i < |keys|
      invariant 0 <= i <= |keys|
      invariant |results| == i
      invariant forall k :: 0 <= k < i ==> point(keys[k]).Ok? && results[k] == point(keys[k]).value
    {
      var p := point(keys[i]);
      if p.Err? {
        return Err(p.error);
      }
      results := results + [p.value];
      i := i + 1;
    }
    return Ok(results);
  }

  /** `Array.from({ length: 5 }, (_, i) => year - i)`. */
  function LastFiveYears(year: int): (ys: seq<int>)
    ensures |ys| == 5 && forall i :: 0 <= i < 5 ==> ys[i] == year - i
  {
    [year, year - 1, year - 2, year - 3, year - 4]
  }

  /** `Array.from({ length: 12 }, (_, i) => i + 1)`. */
  function MonthNumbers(): (ms: seq<int>)
    ensures |ms| == 12 && forall i :: 0 <= i < 12 ==> ms[i] == i + 1
  {
    [1, 2, 3, 4, 5, 6, 7, 8, 9, 10, 11, 12]
  }

  /** `getMonthlyYearlyStatistics(year, type)`: the years `year, year - 1, ...,
      year - 4`, or the months 1 to 12 of `year`. Trends are not modelled. */
  method MonthlyYearlyStatistics(s: Store, year: int, mode: Mode) returns (r: Result<seq<PeriodStats>>)
    ensures mode == Yearly ==>
      && (r.Ok? <==> forall i :: 0 <= i < 5 ==> YearPoint(s, LastFiveYears(year)[i]).Ok?)
      && (r.Ok? ==> |r.value| == 5 && forall i :: 0 <= i < 5 ==> r.value[i] == YearPoint(s, LastFiveYears(year)[i]).value)
    ensures mode == Monthly ==>
      && (r.Ok? <==> forall i :: 0 <= i < 12 ==> MonthPoint(s, year, MonthNumbers()[i]).Ok?)
      && (r.Ok? ==> |r.value| == 12 && forall i :: 0 <= i < 12 ==> r.value[i] == MonthPoint(s, year, MonthNumbers()[i]).value)
  {
    if mode == Yearly {
      r := CollectPoints((y: int) => YearPoint(s, y), LastFiveYears(year));
    } else {
      r := CollectPoints((m: int) => MonthPoint(s, year, m), MonthNumbers());
    }
  }

  lemma MonthWindowBounds(year: int, month: int)
    ensures DayOf(MonthWindowStart(year, month)) == LocalDay(year, month - 1, 1)
    ensures DayOf(MonthWindowEnd(year, month)) == LocalDay(year, month, 0)
  {
    DayOfInstant(LocalDay(year, month - 1, 1), 0);
    DayOfInstant(LocalDay(year, month, 0), 86_399_000);
  }

  /** The monthly windows tile the year window: January starts it, each month
      starts the day after the previous one ends, December ends it, and each
      window is as long as its month. */
  lemma MonthWindowsTileYear(year: int, month: int)
    requires 1 <= month <= 12
    ensures DayOf(MonthWindowStart(year, 1)) == DayOf(YearWindowStart(year))
    ensures month < 12 ==> DayOf(MonthWindowStart(year, month + 1)) == DayOf(MonthWindowEnd(year, month)) + 1
    ensures DayOf(MonthWindowEnd(year, 12)) == DayOf(YearWindowEnd(year))
    ensures DayOf(MonthWindowEnd(year, month)) - DayOf(MonthWindowStart(year, month)) + 1
      == DaysInMonth(FullYear(year), month)
  {
    YearWindowBounds(year);
    MonthWindowBounds(year, 1);
    MonthWindowBounds(year, 12);
    MonthWindowBounds(year, month);
    MonthWindowBounds(year, month + 1);
    MonthsTileYear(year, month);
    LastDayOfMonth(year, month);
  }
}
