/** Record listings: the four table accessors (`getReceivedChargebacks` and
    its siblings), the merged list of a day's cases (`getTodayCases`) and the
    per-table lists of a day (`getTodayDataByCategory`). */
module Listing {
  import opened Maybe
  import opened Seqs
  import opened Calendar
  import opened Schema
  import opened Aggregation

  // ---------------------------------------------------------------------------
  // The table accessors

  /** The ordering column. */
  function Ts(r: Record): int
  {
    r.dateTraitementRpa
  }

  /** `ORDER BY dateTraitementRpa DESC LIMIT limit OFFSET offset`; rows with
      the same timestamp keep their table order. */
  function ListRecords(rs: seq<Record>, limit: nat, offset: nat): (r: seq<Record>)
    ensures |r| == if offset >= |rs| then 0 else Min(limit, |rs| - offset)
    ensures SortedDesc(r, Ts)
    ensures offset < |rs| ==> r == SortDesc(rs, Ts)[offset..offset + Min(limit, |rs| - offset)]
    ensures multiset(r) <= multiset(rs)
  {
    var sorted := SortDesc(rs, Ts);
    SortedPageFacts(sorted, Ts, limit, offset);
    Page(sorted, limit, offset)
  }

  /** A listed row is a row of the table. */
  lemma ListedRowsBelong(rs: seq<Record>, limit: nat, offset: nat, x: Record)
    requires x in ListRecords(rs, limit, offset)
    ensures x in rs
  {
    assert x in multiset(ListRecords(rs, limit, offset));
  }

  /** The `{ dateFrom, dateTo }` filter object, its ISO dates given as day
      numbers; the default `{}` is `None`. */
  datatype DateFilters = DateFilters(dateFrom: int, dateTo: int)

  /** The accessor of table `c`. Its `filters` argument is accepted and not
      used. */
  function CategoryList(s: Store, c: Category, limit: nat, offset: nat, filters: Option<DateFilters>): (r: seq<Record>)
    ensures r == ListRecords(Collection(s, c), limit, offset)
    ensures |r| <= limit
    ensures multiset(r) <= multiset(Collection(s, c))
  {
    ListRecords(Collection(s, c), limit, offset)
  }

  /** The filters make no difference. */
  lemma CategoryListIgnoresFilters(s: Store, c: Category, limit: nat, offset: nat,
                                   f: Option<DateFilters>, g: Option<DateFilters>)
    ensures CategoryList(s, c, limit, offset, f) == CategoryList(s, c, limit, offset, g)
  {
  }

  /** The first page holds the most recent rows: a row left out is no newer
      than any row listed. */
  lemma ListMostRecent(rs: seq<Record>, limit: nat, x: Record)
    requires x in rs && x !in ListRecords(rs, limit, 0)
    ensures forall t :: t in ListRecords(rs, limit, 0) ==> Ts(t) >= Ts(x)
  {
    SortedPageIsLargest(rs, Ts, limit, x);
  }

  /** A first page at least as long as the table lists every row. */
  lemma ListAllWhenShort(rs: seq<Record>, limit: nat)
    requires |rs| <= limit
    ensures multiset(ListRecords(rs, limit, 0)) == multiset(rs)
  {
    var sorted := SortDesc(rs, Ts);
    assert Page(sorted, limit, 0) == sorted;
  }

  // ---------------------------------------------------------------------------
  // getTodayCases

  /** A row spread with its `type` tag. */
  datatype Case = Case(record: Record, category: Category)

  /** The `type` value written for each table. */
  function TypeName(c: Category): string
  {
    match c
    case ReceivedChargeback => "received_chargeback"
    case IssuedRepresentment => "issued_representment"
    case IssuedChargeback => "issued_chargeback"
    case ReceivedRepresentment => "received_representment"
  }

  /** Distinct tables get distinct tags. */
  lemma TypeNameInjective(c: Category, d: Category)
    ensures TypeName(c) == TypeName(d) <==> c == d
  {
    if c != d {
      assert TypeName(c)[..10] != TypeName(d)[..10] || TypeName(c)[9..] != TypeName(d)[9..];
    }
  }

  function CaseTs(x: Case): int
  {
    x.record.dateTraitementRpa
  }

  function Tag(rs: seq<Record>, c: Category): (r: seq<Case>)
    ensures |r| == |rs|
    ensures forall i :: 0 <= i < |rs| ==> r[i] == Case(rs[i], c)
    ensures AllTagged(r, c)
  {
    if rs == [] then [] else [Case(rs[0], c)] + Tag(rs[1..], c)
  }

  /** One table's share: that day's rows, `OFFSET offset LIMIT floor(limit / 4)`,
      in table order (the query has no `ORDER BY`). */
  function DayPart(s: Store, c: Category, date: int, limit: nat, offset: nat): seq<Record>
  {
    Page(InDay(Collection(s, c), date), limit / 4, offset)
  }

  /** A share holds at most `floor(limit / 4)` of the table's rows, all
      processed on the day of `date`. */
  lemma DayPartFacts(s: Store, c: Category, date: int, limit: nat, offset: nat)
    ensures |DayPart(s, c, date, limit, offset)| <= limit / 4
    ensures forall x :: x in DayPart(s, c, date, limit, offset) ==>
      x in Collection(s, c) && DayOf(x.dateTraitementRpa) == DayOf(date)
  {
    var rows := InDay(Collection(s, c), date);
    var r := Page(rows, limit / 4, offset);
    assert forall x :: x in r ==> x in rows;
  }

  /** The four tagged shares, concatenated in query order. */
  function Merged(s: Store, date: int, limit: nat, offset: nat): seq<Case>
  {
    Tag(DayPart(s, ReceivedChargeback, date, limit, offset), ReceivedChargeback)
    + Tag(DayPart(s, IssuedRepresentment, date, limit, offset), IssuedRepresentment)
    + Tag(DayPart(s, IssuedChargeback, date, limit, offset), IssuedChargeback)
    + Tag(DayPart(s, ReceivedRepresentment, date, limit, offset), ReceivedRepresentment)
  }

  /** A tagged case is a row of the tagged share. */
  lemma TaggedMember(t: seq<Record>, c: Category, x: Case)
    requires x in Tag(t, c)
    ensures x.category == c && x.record in t
  {
    var i :| 0 <= i < |t| && Tag(t, c)[i] == x;
  }

  /** Every merged case comes from the share of the table it is tagged with. */
  lemma MergedTagged(s: Store, date: int, limit: nat, offset: nat, x: Case)
    requires x in Merged(s, date, limit, offset)
    ensures x.record in DayPart(s, x.category, date, limit, offset)
  {
    var t0 := DayPart(s, ReceivedChargeback, date, limit, offset);
    var t1 := DayPart(s, IssuedRepresentment, date, limit, offset);
    var t2 := DayPart(s, IssuedChargeback, date, limit, offset);
    var t3 := DayPart(s, ReceivedRepresentment, date, limit, offset);
    if x in Tag(t0, ReceivedChargeback) {
      TaggedMember(t0, ReceivedChargeback, x);
    } else if x in Tag(t1, IssuedRepresentment) {
      TaggedMember(t1, IssuedRepresentment, x);
    } else if x in Tag(t2, IssuedChargeback) {
      TaggedMember(t2, IssuedChargeback, x);
    } else {
      TaggedMember(t3, ReceivedRepresentment, x);
    }
  }

  lemma MergedLength(s: Store, date: int, limit: nat, offset: nat)
    ensures |Merged(s, date, limit, offset)| <= 4 * (limit / 4)
  {
    DayPartFacts(s, ReceivedChargeback, date, limit, offset);
    DayPartFacts(s, IssuedRepresentment, date, limit, offset);
    DayPartFacts(s, IssuedChargeback, date, limit, offset);
    DayPartFacts(s, ReceivedRepresentment, date, limit, offset);
  }

  /** `getTodayCases(date, limit, offset)`: the merged shares sorted newest
      first by a stable sort. */
  function TodayCases(s: Store, date: int, limit: nat, offset: nat): (r: seq<Case>)
    ensures |r| <= 4 * (limit / 4) <= limit
    ensures SortedDesc(r, CaseTs)
    ensures multiset(r) == multiset(Merged(s, date, limit, offset))
  {
    MergedLength(s, date, limit, offset);
    SortDesc(Merged(s, date, limit, offset), CaseTs)
  }

  /** `getTodayCases(date, limit, offset)` as called: rejected when the
      day's window leaves the time range. */
  function TodayCasesQuery(s: Store, date: int, limit: nat, offset: nat): (r: Result<seq<Case>>)
    ensures r.Ok? <==> DayBoundsValid(date)
    ensures r.Ok? ==> |r.value| <= limit && SortedDesc(r.value, CaseTs)
    ensures r.Ok? ==> r.value == TodayCases(s, date, limit, offset)
  {
    if !DayBoundsValid(date) then Err(InvalidTimeValue) else Ok(TodayCases(s, date, limit, offset))
  }

  /** Each case is a row of its tagged table, processed on that day, and
      taken from that table's share. */
  lemma TodayCasesTagged(s: Store, date: int, limit: nat, offset: nat, x: Case)
    requires x in TodayCases(s, date, limit, offset)
    ensures x.record in DayPart(s, x.category, date, limit, offset)
    ensures x.record in Collection(s, x.category)
    ensures DayOf(x.record.dateTraitementRpa) == DayOf(date)
  {
    assert x in multiset(Merged(s, date, limit, offset));
    MergedTagged(s, date, limit, offset, x);
    DayPartFacts(s, x.category, date, limit, offset);
  }

  function CategoryTest(c: Category): Case -> bool
  {
    (x: Case) => x.category == c
  }

  /** Every element of `t` is tagged `c`. */
  predicate AllTagged(t: seq<Case>, c: Category)
  {
    forall i :: 0 <= i < |t| ==> t[i].category == c
  }

  /** The block of the four that belongs to table `c`. */
  function Block(c: Category, t0: seq<Case>, t1: seq<Case>, t2: seq<Case>, t3: seq<Case>): seq<Case>
  {
    match c
    case ReceivedChargeback => t0
    case IssuedRepresentment => t1
    case IssuedChargeback => t2
    case ReceivedRepresentment => t3
  }

  /** Selecting the cases tagged `c` from the four blocks in query order
      yields block `c`. */
  lemma FilterBlocks(t0: seq<Case>, t1: seq<Case>, t2: seq<Case>, t3: seq<Case>, c: Category)
    requires AllTagged(t0, ReceivedChargeback) && AllTagged(t1, IssuedRepresentment)
    requires AllTagged(t2, IssuedChargeback) && AllTagged(t3, ReceivedRepresentment)
    ensures Filter(t0 + t1 + t2 + t3, CategoryTest(c)) == Block(c, t0, t1, t2, t3)
  {
    var p := CategoryTest(c);
    FilterAppend(t0 + t1 + t2, t3, p);
    FilterAppend(t0 + t1, t2, p);
    FilterAppend(t0, t1, p);
    var f0, f1, f2, f3 := Filter(t0, p), Filter(t1, p), Filter(t2, p), Filter(t3, p);
    assert Filter(t0 + t1 + t2 + t3, p) == f0 + f1 + f2 + f3;
    ShareFilter(t0, ReceivedChargeback, c);
    ShareFilter(t1, IssuedRepresentment, c);
    ShareFilter(t2, IssuedChargeback, c);
    ShareFilter(t3, ReceivedRepresentment, c);
    match c
    case ReceivedChargeback => assert f0 + f1 + f2 + f3 == t0 + [] + [] + [];
    case IssuedRepresentment => assert f0 + f1 + f2 + f3 == [] + t1 + [] + [];
    case IssuedChargeback => assert f0 + f1 + f2 + f3 == [] + [] + t2 + [];
    case ReceivedRepresentment => assert f0 + f1 + f2 + f3 == [] + [] + [] + t3;
  }

  /** In any permutation of four single-table blocks, the cases tagged `c`
      are a permutation of block `c`. */
  lemma SelectBlock(r: seq<Case>, t0: seq<Case>, t1: seq<Case>, t2: seq<Case>, t3: seq<Case>, c: Category)
    requires multiset(r) == multiset(t0 + t1 + t2 + t3)
    requires AllTagged(t0, ReceivedChargeback) && AllTagged(t1, IssuedRepresentment)
    requires AllTagged(t2, IssuedChargeback) && AllTagged(t3, ReceivedRepresentment)
    ensures multiset(Filter(r, CategoryTest(c))) == multiset(Block(c, t0, t1, t2, t3))
    ensures |Filter(r, CategoryTest(c))| == |Block(c, t0, t1, t2, t3)|
  {
    FilterPermutation(r, t0 + t1 + t2 + t3, CategoryTest(c));
    FilterBlocks(t0, t1, t2, t3, c);
  }

  /** The cases tagged `c` are exactly table `c`'s share, so each table
      contributes at most `floor(limit / 4)` cases. */
  lemma TodayCasesPerCategory(s: Store, date: int, limit: nat, offset: nat, c: Category)
    ensures var share := DayPart(s, c, date, limit, offset);
      var tagged := Filter(TodayCases(s, date, limit, offset), CategoryTest(c));
      && multiset(tagged) == multiset(Tag(share, c))
      && |tagged| == |share| <= limit / 4
  {
    var t0 := Tag(DayPart(s, ReceivedChargeback, date, limit, offset), ReceivedChargeback);
    var t1 := Tag(DayPart(s, IssuedRepresentment, date, limit, offset), IssuedRepresentment);
    var t2 := Tag(DayPart(s, IssuedChargeback, date, limit, offset), IssuedChargeback);
    var t3 := Tag(DayPart(s, ReceivedRepresentment, date, limit, offset), ReceivedRepresentment);
    var r := TodayCases(s, date, limit, offset);
    assert multiset(r) == multiset(t0 + t1 + t2 + t3) by {
      assert Merged(s, date, limit, offset) == t0 + t1 + t2 + t3;
    }
    SelectBlock(r, t0, t1, t2, t3, c);
    assert Block(c, t0, t1, t2, t3) == Tag(DayPart(s, c, date, limit, offset), c) by {
      match c
      case ReceivedChargeback =>
      case IssuedRepresentment =>
      case IssuedChargeback =>
      case ReceivedRepresentment =>
    }
    DayPartFacts(s, c, date, limit, offset);
  }

  /** Filtering one tagged share by category keeps it whole or drops it. */
  lemma ShareFilter(t: seq<Case>, d: Category, c: Category)
    requires AllTagged(t, d)
    ensures Filter(t, CategoryTest(c)) == if c == d then t else []
  {
    if c == d {
      FilterKeepsAll(t, CategoryTest(c));
    } else {
      FilterNone(t, CategoryTest(c));
    }
  }

  // ---------------------------------------------------------------------------
  // getTodayDataByCategory

  /** The four lists, in the order of the returned object. */
  datatype CategoryLists = CategoryLists(
    receivedChargebacks: seq<Record>,
    issuedChargebacks: seq<Record>,
    receivedRepresentments: seq<Record>,
    issuedRepresentments: seq<Record>)

  function ListFor(l: CategoryLists, c: Category): seq<Record>
  {
    match c
    case ReceivedChargeback => l.receivedChargebacks
    case IssuedRepresentment => l.issuedRepresentments
    case IssuedChargeback => l.issuedChargebacks
    case ReceivedRepresentment => l.receivedRepresentments
  }

  /** The filters handed to the accessors: the dates of the day's first and
      last millisecond. */
  function DayFilters(date: int): Option<DateFilters>
  {
    Some(DateFilters(DayOf(StartOfDay(date)), DayOf(EndOfDay(date))))
  }

  /** The four accessor results for the given filters. */
  function AccessorLists(s: Store, filters: Option<DateFilters>): CategoryLists
  {
    CategoryLists(
      CategoryList(s, ReceivedChargeback, 100, 0, filters),
      CategoryList(s, IssuedChargeback, 100, 0, filters),
      CategoryList(s, ReceivedRepresentment, 100, 0, filters),
      CategoryList(s, IssuedRepresentment, 100, 0, filters))
  }

  /** `getTodayDataByCategory(date)` as written: each accessor is called with
      limit 100, offset 0 and the day's filters, which it does not use. */
  function TodayDataByCategory(s: Store, date: int): (r: Result<CategoryLists>)
    ensures r.Ok? <==> DayBoundsValid(date)
  {
    if !DayBoundsValid(date) then Err(InvalidTimeValue) else Ok(AccessorLists(s, DayFilters(date)))
  }

  /** As written, the date only decides whether the call fails: two valid
      dates give the same lists, the 100 most recent rows of each table. */
  lemma TodayDataIgnoresDate(s: Store, d1: int, d2: int, c: Category)
    requires DayBoundsValid(d1) && DayBoundsValid(d2)
    ensures TodayDataByCategory(s, d1) == TodayDataByCategory(s, d2)
    ensures ListFor(TodayDataByCategory(s, d1).value, c) == ListRecords(Collection(s, c), 100, 0)
  {
  }

  /** A received chargeback processed on day 0 is listed for day 1. */
  lemma TodayDataListsOtherDays()
    ensures var rec := Record(1, "", 0, "", "", "", "", 0, 0, None, 0, "", None, None, None, "");
      var r := TodayDataByCategory(Store([rec], [], [], []), MsPerDay);
      && r.Ok?
      && rec in r.value.receivedChargebacks
      && DayOf(rec.dateTraitementRpa) != DayOf(MsPerDay)
  {
    var rec := Record(1, "", 0, "", "", "", "", 0, 0, None, 0, "", None, None, None, "");
    ListAllWhenShort([rec], 100);
    assert rec in multiset([rec]);
  }

  /** The intended behaviour: each list holds the (at most 100) most recent
      rows processed on the day of `date`. */
  function InDayLists(s: Store, date: int): CategoryLists
  {
    CategoryLists(
      ListRecords(InDay(s.receivedChargebacks, date), 100, 0),
      ListRecords(InDay(s.issuedChargebacks, date), 100, 0),
      ListRecords(InDay(s.receivedRepresentments, date), 100, 0),
      ListRecords(InDay(s.issuedRepresentments, date), 100, 0))
  }

  function TodayDataByCategoryInDay(s: Store, date: int): (r: Result<CategoryLists>)
    ensures r.Ok? <==> DayBoundsValid(date)
  {
    if !DayBoundsValid(date) then Err(InvalidTimeValue) else Ok(InDayLists(s, date))
  }

  /** Every listed row was processed that day, the lists are newest first,
      and a day with at most 100 rows in a table lists all of them. */
  lemma TodayDataInDay(s: Store, date: int, c: Category)
    requires DayBoundsValid(date)
    ensures var l := ListFor(TodayDataByCategoryInDay(s, date).value, c);
      && |l| <= 100
      && SortedDesc(l, Ts)
      && (forall x :: x in l ==> x in Collection(s, c) && DayOf(x.dateTraitementRpa) == DayOf(date))
      && (|InDay(Collection(s, c), date)| <= 100 ==> multiset(l) == multiset(InDay(Collection(s, c), date)))
  {
    var rows := InDay(Collection(s, c), date);
    var l := ListRecords(rows, 100, 0);
    assert ListFor(TodayDataByCategoryInDay(s, date).value, c) == l;
    forall x | x in l
      ensures x in rows
    {
      ListedRowsBelong(rows, 100, 0, x);
    }
    if |rows| <= 100 {
      ListAllWhenShort(rows, 100);
    }
  }
}
