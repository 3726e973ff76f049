/** `GROUP BY` over received chargebacks: the top issuers and acquirers of a
    day (`getTopIssuers`, `getTopAcquirers`) and the per-bank counts of a year
    (`getBankDistributionData`). PostgreSQL returns groups in an unspecified
    order; here they come in the order their keys first appear, and rows of
    equal volume keep that order. */
module Ranking {
  import opened Maybe
  import opened Seqs
  import opened Calendar
  import opened Schema
  import opened Aggregation
  import Text

  // ---------------------------------------------------------------------------
  // Grouping

  /** The values of the two `GROUP BY` columns; NULL is `None`. */
  datatype GroupKey = GroupKey(first: Option<string>, second: Option<string>)

  /** `groupBy(issuer, libBank)`. */
  function IssuerKey(r: Record): GroupKey
  {
    GroupKey(r.issuer, r.libBank)
  }

  /** `groupBy(acquirer, acquirerRef)`; `acquirerRef` is never NULL. */
  function AcquirerKey(r: Record): GroupKey
  {
    GroupKey(r.acquirer, Some(r.acquirerRef))
  }

  /** The distinct keys of `rs`, in order of first appearance. */
  function Keys(rs: seq<Record>, key: Record -> GroupKey): (ks: seq<GroupKey>)
    ensures |ks| <= |rs|
    ensures forall i, j :: 0 <= i < j < |ks| ==> ks[i] != ks[j]
    ensures forall k :: k in ks <==> exists i :: 0 <= i < |rs| && key(rs[i]) == k
  {
    if rs == [] then []
    else
      var init := rs[..|rs| - 1];
      var ks := Keys(init, key);
      var k := key(rs[|rs| - 1]);
      assert forall i :: 0 <= i < |init| ==> init[i] == rs[i];
      if k in ks then ks else ks + [k]
  }

  function KeyTest(key: Record -> GroupKey, k: GroupKey): Record -> bool
  {
    (x: Record) => key(x) == k
  }

  /** One result row of a grouped query before projection. */
  datatype Group = Group(key: GroupKey, members: seq<Record>)

  /** One group per distinct key, holding that key's rows in table order. */
  function GroupBy(rs: seq<Record>, key: Record -> GroupKey): (gs: seq<Group>)
    ensures |gs| == |Keys(rs, key)|
    ensures forall i :: 0 <= i < |gs| ==> gs[i].key == Keys(rs, key)[i]
  {
    var ks := Keys(rs, key);
    seq(|ks|, i requires 0 <= i < |ks| => Group(ks[i], Filter(rs, KeyTest(key, ks[i]))))
  }

  /** Each group holds exactly the rows carrying its key. */
  lemma GroupMembers(rs: seq<Record>, key: Record -> GroupKey, i: int)
    requires 0 <= i < |GroupBy(rs, key)|
    ensures forall x :: x in GroupBy(rs, key)[i].members <==> x in rs && key(x) == GroupBy(rs, key)[i].key
  {
    var g := GroupBy(rs, key)[i];
    assert g.members == Filter(rs, KeyTest(key, g.key));
  }

  /** The groups partition the rows: keys are distinct, no group is empty,
      each group holds exactly the rows carrying its key, and every row lies
      in the group of its key. */
  lemma GroupByPartition(rs: seq<Record>, key: Record -> GroupKey)
    ensures var gs := GroupBy(rs, key);
      && (forall i, j :: 0 <= i < j < |gs| ==> gs[i].key != gs[j].key)
      && (forall i :: 0 <= i < |gs| ==> gs[i].members != [])
      && (forall i :: 0 <= i < |gs| ==> forall x :: x in gs[i].members <==> x in rs && key(x) == gs[i].key)
      && (forall j :: 0 <= j < |rs| ==> exists i :: 0 <= i < |gs| && gs[i].key == key(rs[j]) && rs[j] in gs[i].members)
  {
    var gs := GroupBy(rs, key);
    var ks := Keys(rs, key);
    forall i | 0 <= i < |gs|
      ensures forall x :: x in gs[i].members <==> x in rs && key(x) == gs[i].key
      ensures gs[i].members != []
    {
      GroupMembers(rs, key, i);
      assert ks[i] in ks;
      var j :| 0 <= j < |rs| && key(rs[j]) == ks[i];
      assert rs[j] in gs[i].members;
    }
    forall j | 0 <= j < |rs|
      ensures exists i :: 0 <= i < |gs| && gs[i].key == key(rs[j]) && rs[j] in gs[i].members
    {
      assert key(rs[j]) in ks;
      var i :| 0 <= i < |ks| && ks[i] == key(rs[j]);
      GroupMembers(rs, key, i);
    }
  }

  // ---------------------------------------------------------------------------
  // Ordering by volume

  /** `sum(amountCp)` of a group, in cents. */
  function GroupVolume(g: Group): int
  {
    SumAmounts(g.members)
  }

  /** `ORDER BY sum(amountCp) DESC LIMIT limit` over the groups of `rs`. */
  function TopGroups(rs: seq<Record>, key: Record -> GroupKey, limit: nat): (top: seq<Group>)
    ensures |top| == Min(limit, |GroupBy(rs, key)|)
    ensures SortedDesc(top, GroupVolume)
    ensures forall g :: g in top ==> g in GroupBy(rs, key)
  {
    var sorted := SortDesc(GroupBy(rs, key), GroupVolume);
    var top := Page(sorted, limit, 0);
    assert forall g :: g in top ==> g in multiset(sorted);
    top
  }

  /** The top-N property: a group left out has no larger volume than any
      group kept. */
  lemma TopGroupsAreLargest(rs: seq<Record>, key: Record -> GroupKey, limit: nat, g: Group)
    requires g in GroupBy(rs, key) && g !in TopGroups(rs, key, limit)
    ensures forall t :: t in TopGroups(rs, key, limit) ==> GroupVolume(t) >= GroupVolume(g)
  {
    SortedPageIsLargest(GroupBy(rs, key), GroupVolume, limit, g);
  }

  // ---------------------------------------------------------------------------
  // getTopIssuers and getTopAcquirers

  /** `x || ''` on a nullable text column. */
  function OrEmpty(o: Option<string>): (r: string)
    ensures o.None? ==> r == ""
    ensures o.Some? ==> r == o.value
  {
    if o.Some? then o.value else ""
  }

  datatype IssuerRow = IssuerRow(issuer: string, libBank: string, volume: string, count: nat)

  datatype AcquirerRow = AcquirerRow(acquirer: string, acquirerRef: string, volume: string, count: nat)

  function GroupsOfDay(s: Store, date: int, key: Record -> GroupKey, limit: nat): seq<Group>
  {
    TopGroups(InDay(s.receivedChargebacks, date), key, limit)
  }

  /** A group's `sum` is never NULL (a group has rows), so `volume || '0'`
      and `count || 0` keep the computed values. */
  function IssuerRowOf(g: Group): IssuerRow
  {
    IssuerRow(OrEmpty(g.key.first), OrEmpty(g.key.second), Text.CentsText(GroupVolume(g)), |g.members|)
  }

  function AcquirerRowOf(g: Group): AcquirerRow
  {
    AcquirerRow(OrEmpty(g.key.first), OrEmpty(g.key.second), Text.CentsText(GroupVolume(g)), |g.members|)
  }

  function TopIssuers(s: Store, date: int, limit: nat): (r: seq<IssuerRow>)
    ensures |r| == |GroupsOfDay(s, date, IssuerKey, limit)| <= limit
  {
    var top := GroupsOfDay(s, date, IssuerKey, limit);
    seq(|top|, i requires 0 <= i < |top| => IssuerRowOf(top[i]))
  }

  function TopAcquirers(s: Store, date: int, limit: nat): (r: seq<AcquirerRow>)
    ensures |r| == |GroupsOfDay(s, date, AcquirerKey, limit)| <= limit
  {
    var top := GroupsOfDay(s, date, AcquirerKey, limit);
    seq(|top|, i requires 0 <= i < |top| => AcquirerRowOf(top[i]))
  }

  /** `getTopIssuers(date, limit)` as called: rejected when the day's window
      leaves the time range. */
  function TopIssuersQuery(s: Store, date: int, limit: nat): (r: Result<seq<IssuerRow>>)
    ensures r.Ok? <==> DayBoundsValid(date)
    ensures r.Ok? ==> |r.value| <= limit && r.value == TopIssuers(s, date, limit)
  {
    if !DayBoundsValid(date) then Err(InvalidTimeValue) else Ok(TopIssuers(s, date, limit))
  }

  /** `getTopAcquirers(date, limit)` as called: rejected when the day's
      window leaves the time range. */
  function TopAcquirersQuery(s: Store, date: int, limit: nat): (r: Result<seq<AcquirerRow>>)
    ensures r.Ok? <==> DayBoundsValid(date)
    ensures r.Ok? ==> |r.value| <= limit && r.value == TopAcquirers(s, date, limit)
  {
    if !DayBoundsValid(date) then Err(InvalidTimeValue) else Ok(TopAcquirers(s, date, limit))
  }

  /** The facts shared by both rankings: each kept group is non-empty, holds
      exactly the day's rows carrying its key, and the volumes read back in
      non-increasing order. */
  lemma TopGroupFacts(s: Store, date: int, key: Record -> GroupKey, limit: nat, i: int)
    requires 0 <= i < |GroupsOfDay(s, date, key, limit)|
    ensures var g := GroupsOfDay(s, date, key, limit)[i];
      var day := InDay(s.receivedChargebacks, date);
      && g.members != []
      && (forall x :: x in g.members <==> x in day && key(x) == g.key)
      && (forall x :: x in g.members ==> DayOf(x.dateTraitementRpa) == DayOf(date))
  {
    var day := InDay(s.receivedChargebacks, date);
    var g := GroupsOfDay(s, date, key, limit)[i];
    assert g in GroupBy(day, key);
    GroupByPartition(day, key);
    var gs := GroupBy(day, key);
    var j :| 0 <= j < |gs| && gs[j] == g;
  }

  /** Rendered volumes read back with `parseFloat` in the order of the sums. */
  lemma VolumeTextOrder(a: int, b: int)
    requires a >= b
    ensures Text.ParseFloat(Text.CentsText(a)).Some? && Text.ParseFloat(Text.CentsText(b)).Some?
    ensures Text.ParseFloat(Text.CentsText(a)).value >= Text.ParseFloat(Text.CentsText(b)).value
  {
    Text.ParseCentsText(a);
    Text.ParseCentsText(b);
  }

  /** Row `i` of `getTopIssuers(date, limit)`: a group of that day's received
      chargebacks, with its `issuer`/`libBank` (NULL as ''), its size and the
      text of its summed amount. */
  lemma TopIssuerRow(s: Store, date: int, limit: nat, i: int)
    requires 0 <= i < |TopIssuers(s, date, limit)|
    ensures var row := TopIssuers(s, date, limit)[i];
      var g := GroupsOfDay(s, date, IssuerKey, limit)[i];
      && row.count == |g.members| >= 1
      && row.volume == Text.CentsText(SumAmounts(g.members))
      && (forall x :: x in g.members ==> OrEmpty(x.issuer) == row.issuer && OrEmpty(x.libBank) == row.libBank)
      && (forall x :: x in g.members <==> x in InDay(s.receivedChargebacks, date) && IssuerKey(x) == g.key)
  {
    TopGroupFacts(s, date, IssuerKey, limit, i);
  }

  /** The volume text of a row reads back as the group's summed amount. */
  lemma IssuerRowVolume(g: Group)
    ensures Text.ParseFloat(IssuerRowOf(g).volume) == Some(GroupVolume(g) as real / 100.0)
  {
    Text.ParseCentsText(GroupVolume(g));
  }

  /** Row `i` of `getTopAcquirers(date, limit)`, grouped by
      `acquirer`/`acquirerRef`. */
  lemma TopAcquirerRow(s: Store, date: int, limit: nat, i: int)
    requires 0 <= i < |TopAcquirers(s, date, limit)|
    ensures var row := TopAcquirers(s, date, limit)[i];
      var g := GroupsOfDay(s, date, AcquirerKey, limit)[i];
      && row.count == |g.members| >= 1
      && row.volume == Text.CentsText(SumAmounts(g.members))
      && (forall x :: x in g.members ==> OrEmpty(x.acquirer) == row.acquirer && x.acquirerRef == row.acquirerRef)
      && (forall x :: x in g.members <==> x in InDay(s.receivedChargebacks, date) && AcquirerKey(x) == g.key)
  {
    TopGroupFacts(s, date, AcquirerKey, limit, i);
  }

  /** The volume text of that row reads back as the group's summed amount. */
  lemma AcquirerRowVolume(g: Group)
    ensures Text.ParseFloat(AcquirerRowOf(g).volume) == Some(GroupVolume(g) as real / 100.0)
  {
    Text.ParseCentsText(GroupVolume(g));
  }

  /** Both rankings list volumes in non-increasing order, as read back by
      `parseFloat`. */
  lemma TopIssuersOrdered(s: Store, date: int, limit: nat, i: int, j: int)
    requires 0 <= i < j < |TopIssuers(s, date, limit)|
    ensures Text.ParseFloat(TopIssuers(s, date, limit)[i].volume).Some?
    ensures Text.ParseFloat(TopIssuers(s, date, limit)[j].volume).Some?
    ensures Text.ParseFloat(TopIssuers(s, date, limit)[i].volume).value
         >= Text.ParseFloat(TopIssuers(s, date, limit)[j].volume).value
  {
    var top := GroupsOfDay(s, date, IssuerKey, limit);
    assert TopIssuers(s, date, limit)[i] == IssuerRowOf(top[i]);
    assert TopIssuers(s, date, limit)[j] == IssuerRowOf(top[j]);
    VolumeTextOrder(GroupVolume(top[i]), GroupVolume(top[j]));
  }

  lemma TopAcquirersOrdered(s: Store, date: int, limit: nat, i: int, j: int)
    requires 0 <= i < j < |TopAcquirers(s, date, limit)|
    ensures Text.ParseFloat(TopAcquirers(s, date, limit)[i].volume).Some?
    ensures Text.ParseFloat(TopAcquirers(s, date, limit)[j].volume).Some?
    ensures Text.ParseFloat(TopAcquirers(s, date, limit)[i].volume).value
         >= Text.ParseFloat(TopAcquirers(s, date, limit)[j].volume).value
  {
    var top := GroupsOfDay(s, date, AcquirerKey, limit);
    assert TopAcquirers(s, date, limit)[i] == AcquirerRowOf(top[i]);
    assert TopAcquirers(s, date, limit)[j] == AcquirerRowOf(top[j]);
    VolumeTextOrder(GroupVolume(top[i]), GroupVolume(top[j]));
  }

  // ---------------------------------------------------------------------------
  // getBankDistributionData

  /** A JavaScript-truthy text column: not NULL and not empty. */
  predicate Truthy(o: Option<string>)
  {
    o.Some? && o.value != ""
  }

  /** `libBank || issuer || 'Unknown'`. */
  function IssuerLabel(k: GroupKey): (name: string)
    ensures name != ""
    ensures Truthy(k.second) ==> name == k.second.value
    ensures !Truthy(k.second) && Truthy(k.first) ==> name == k.first.value
    ensures !Truthy(k.second) && !Truthy(k.first) ==> name == "Unknown"
  {
    if Truthy(k.second) then k.second.value else if Truthy(k.first) then k.first.value else "Unknown"
  }

  /** `acquirer || 'Unknown'`. */
  function AcquirerLabel(k: GroupKey): (name: string)
    ensures name != ""
    ensures Truthy(k.first) ==> name == k.first.value
    ensures !Truthy(k.first) ==> name == "Unknown"
  {
    if Truthy(k.first) then k.first.value else "Unknown"
  }

  /** One bank's counts; only received chargebacks are ever counted. */
  datatype BankRow = BankRow(
    bank: string,
    receivedChargebacks: nat,
    issuedChargebacks: nat,
    receivedRepresentments: nat,
    issuedRepresentments: nat)

  datatype BankDistribution = BankDistribution(issuerBankData: seq<BankRow>, acquirerBankData: seq<BankRow>)

  /** The year's received chargebacks: `DATE(dateTraitementRpa)` between the
      ISO dates of `new Date(year, 0, 1)` and `new Date(year, 11, 31, 23, 59, 59)`. */
  function YearRows(s: Store, year: int): seq<Record>
  {
    Selected(s.receivedChargebacks, DayOf(YearWindowStart(year)), DayOf(YearWindowEnd(year)), "all")
  }

  /** `getBankDistributionData(year)`; `toISOString` throws when a bound is
      outside the ECMAScript time range. */
  function BankDistributionData(s: Store, year: int): (r: Result<BankDistribution>)
    ensures r.Ok? <==> ValidTime(YearWindowStart(year)) && ValidTime(YearWindowEnd(year))
    ensures r.Ok? ==>
      var ig := GroupBy(YearRows(s, year), IssuerKey);
      var ag := GroupBy(YearRows(s, year), AcquirerKey);
      && |r.value.issuerBankData| == |ig| && |r.value.acquirerBankData| == |ag|
      && (forall i :: 0 <= i < |ig| ==>
            r.value.issuerBankData[i] == BankRow(IssuerLabel(ig[i].key), |ig[i].members|, 0, 0, 0))
      && (forall i :: 0 <= i < |ag| ==>
            r.value.acquirerBankData[i] == BankRow(AcquirerLabel(ag[i].key), |ag[i].members|, 0, 0, 0))
  {
    if !ValidTime(YearWindowStart(year)) || !ValidTime(YearWindowEnd(year)) then Err(InvalidTimeValue)
    else
      var rows := YearRows(s, year);
      var ig := GroupBy(rows, IssuerKey);
      var ag := GroupBy(rows, AcquirerKey);
      Ok(BankDistribution(
        seq(|ig|, i requires 0 <= i < |ig| => BankRow(IssuerLabel(ig[i].key), |ig[i].members|, 0, 0, 0)),
        seq(|ag|, i requires 0 <= i < |ag| => BankRow(AcquirerLabel(ag[i].key), |ag[i].members|, 0, 0, 0))))
  }

  /** Every row counts at least one received chargeback of the year and
      nothing else; a row's count is the number of the year's received
      chargebacks under its group key. */
  lemma BankDistributionCounts(s: Store, year: int)
    requires BankDistributionData(s, year).Ok?
    ensures var d := BankDistributionData(s, year).value;
      var ig := GroupBy(YearRows(s, year), IssuerKey);
      && (forall i :: 0 <= i < |d.issuerBankData| ==>
            && d.issuerBankData[i].receivedChargebacks >= 1
            && d.issuerBankData[i].issuedChargebacks == 0
            && d.issuerBankData[i].receivedRepresentments == 0
            && d.issuerBankData[i].issuedRepresentments == 0
            && d.issuerBankData[i].receivedChargebacks == |Filter(YearRows(s, year), KeyTest(IssuerKey, ig[i].key))|)
      && (forall i :: 0 <= i < |d.acquirerBankData| ==>
            && d.acquirerBankData[i].receivedChargebacks >= 1
            && d.acquirerBankData[i].issuedChargebacks == 0
            && d.acquirerBankData[i].receivedRepresentments == 0
            && d.acquirerBankData[i].issuedRepresentments == 0)
  {
    GroupByPartition(YearRows(s, year), IssuerKey);
    GroupByPartition(YearRows(s, year), AcquirerKey);
  }
}
