/** The sample rows the storage seeds into an empty database
    (`initializeSampleData`), and what the dashboard's queries return on them
    for their processing day, 2024-12-09. */
module Fixture {
  import opened Maybe
  import opened Seqs
  import opened Calendar
  import opened Schema
  import opened Aggregation
  import opened Matching
  import opened Ranking
  import MatchingRate
  import Text

  /** Day numbers of the dates the sample rows use. */
  const Dec9: int := 20066

  /** The instant `hh:mm` of day `d`. */
  function At(d: int, hh: int, mm: int): int
  {
    d * MsPerDay + (hh * 60 + mm) * 60_000
  }

  /** 2024-12-09 is day 20066. */
  lemma SeedDay()
    ensures DaysFromCivil(2024, 12, 9) == Dec9
  {
  }

  const Rcb1: Record := Record(1, "RCB-2024-001", At(Dec9, 8, 30), "AFF001", "Commerce Plus SARL", "AGE001", "CPT001",
    125050, 125050, Some("VISA"), At(Dec9 - 1, 14, 22), "AUTH001",
    Some("BNP PARIBAS"), Some("BNP Paribas France"), Some("WORLDLINE"), "WL001")
  const Rcb2: Record := Record(2, "RCB-2024-002", At(Dec9, 9, 15), "AFF002", "Tech Solutions Ltd", "AGE002", "CPT002",
    87525, 87525, Some("MASTERCARD"), At(Dec9 - 2, 16, 45), "AUTH002",
    Some("CREDIT AGRICOLE"), Some("Cr\U{00E9}dit Agricole Centre France"), Some("INGENICO"), "ING002")
  const Rcb3: Record := Record(3, "RCB-2024-003", At(Dec9, 10, 0), "AFF003", "Fashion Store SAS", "AGE003", "CPT003",
    45000, 45000, Some("VISA"), At(Dec9 - 3, 11, 30), "AUTH003",
    Some("SOCIETE GENERALE"), Some("Soci\U{00E9}t\U{00E9} G\U{00E9}n\U{00E9}rale"), Some("ATOS"), "AT003")

  const Ire1: Record := Record(1, "IRE-2024-001", At(Dec9, 11, 0), "AFF001", "Commerce Plus SARL", "AGE001", "CPT001",
    125050, 125050, Some("VISA"), At(Dec9 - 1, 14, 22), "AUTH001",
    Some("BNP PARIBAS"), Some("BNP Paribas France"), Some("WORLDLINE"), "WL001")
  const Ire2: Record := Record(2, "IRE-2024-002", At(Dec9, 12, 30), "AFF004", "Online Services Inc", "AGE004", "CPT004",
    32075, 32075, Some("MASTERCARD"), At(Dec9 - 4, 9, 15), "AUTH004",
    Some("LCL"), Some("LCL Banque"), Some("PAYPAL"), "PP004")

  const Icb1: Record := Record(1, "ICB-2024-001", At(Dec9, 13, 15), "AFF005", "Digital Products SARL", "AGE005", "CPT005",
    68090, 68090, Some("VISA"), At(Dec9 - 5, 13, 20), "AUTH005",
    Some("HSBC FRANCE"), None, Some("STRIPE"), "STR005")
  const Icb2: Record := Record(2, "ICB-2024-002", At(Dec9, 14, 0), "AFF006", "Restaurant Le Gourmet", "AGE006", "CPT006",
    12540, 12540, Some("MASTERCARD"), At(Dec9 - 6, 19, 45), "AUTH006",
    Some("BANQUE POPULAIRE"), None, Some("SQUARE"), "SQ006")

  const Rre1: Record := Record(1, "RRE-2024-001", At(Dec9, 15, 30), "AFF005", "Digital Products SARL", "AGE005", "CPT005",
    68090, 68090, Some("VISA"), At(Dec9 - 5, 13, 20), "AUTH005",
    Some("HSBC FRANCE"), None, Some("STRIPE"), "STR005")

  const SeedReceivedChargebacks: seq<Record> := [Rcb1, Rcb2, Rcb3]
  const SeedIssuedRepresentments: seq<Record> := [Ire1, Ire2]
  const SeedIssuedChargebacks: seq<Record> := [Icb1, Icb2]
  const SeedReceivedRepresentments: seq<Record> := [Rre1]

  /** The seeded database. */
  function Seed(): Store
  {
    Store(SeedReceivedChargebacks, SeedIssuedRepresentments, SeedIssuedChargebacks, SeedReceivedRepresentments)
  }

  /** The seed satisfies the table constraints. */
  lemma SeedValid()
    ensures ValidStore(Seed())
  {
    var s := Seed();
    forall c: Category
      ensures forall i :: 0 <= i < |Collection(s, c)| ==> ValidRecord(Collection(s, c)[i], c)
    {
    }
  }

  /** A table whose rows were all processed on the day of `date` is its own
      day window. */
  lemma AllOnDay(rs: seq<Record>, date: int)
    requires forall i :: 0 <= i < |rs| ==> DayOf(rs[i].dateTraitementRpa) == DayOf(date)
    ensures InDay(rs, date) == rs
  {
    forall i | 0 <= i < |rs|
      ensures WindowTest(date)(rs[i])
    {
      DayWindowIff(rs[i].dateTraitementRpa, date);
    }
    FilterKeepsAll(rs, WindowTest(date));
  }

  /** Every seeded row was processed on 2024-12-09. */
  lemma SeedOnDay(date: int)
    requires DayOf(date) == Dec9
    ensures InDay(SeedReceivedChargebacks, date) == SeedReceivedChargebacks
    ensures InDay(SeedIssuedRepresentments, date) == SeedIssuedRepresentments
    ensures InDay(SeedIssuedChargebacks, date) == SeedIssuedChargebacks
    ensures InDay(SeedReceivedRepresentments, date) == SeedReceivedRepresentments
  {
    ReceivedChargebacksOnDay(date);
    IssuedRepresentmentsOnDay(date);
    IssuedChargebacksOnDay(date);
    ReceivedRepresentmentsOnDay(date);
  }

  lemma ReceivedChargebacksOnDay(date: int)
    requires DayOf(date) == Dec9
    ensures InDay(SeedReceivedChargebacks, date) == SeedReceivedChargebacks
  {
    AllOnDay(SeedReceivedChargebacks, date);
  }

  lemma IssuedRepresentmentsOnDay(date: int)
    requires DayOf(date) == Dec9
    ensures InDay(SeedIssuedRepresentments, date) == SeedIssuedRepresentments
  {
    AllOnDay(SeedIssuedRepresentments, date);
  }

  lemma IssuedChargebacksOnDay(date: int)
    requires DayOf(date) == Dec9
    ensures InDay(SeedIssuedChargebacks, date) == SeedIssuedChargebacks
  {
    AllOnDay(SeedIssuedChargebacks, date);
  }

  lemma ReceivedRepresentmentsOnDay(date: int)
    requires DayOf(date) == Dec9
    ensures InDay(SeedReceivedRepresentments, date) == SeedReceivedRepresentments
  {
    AllOnDay(SeedReceivedRepresentments, date);
  }

  /** The day's volumes on the seed: every row counts, and the amounts are the
      tables' totals. */
  lemma SeedDailyVolumes(date: int)
    requires DayOf(date) == Dec9
    ensures var v := GetDailyVolumes(Seed(), date);
      && v.receivedChargebacks == Volume(3, Text.CentsText(257575))
      && v.issuedRepresentments == Volume(2, Text.CentsText(157125))
      && v.issuedChargebacks == Volume(2, Text.CentsText(80630))
      && v.receivedRepresentments == Volume(1, Text.CentsText(68090))
  {
    SeedSums();
    SeedOnDay(date);
    FullDay(Seed(), date);
  }

  /** When every table is non-empty and wholly inside the day window, each
      volume counts and sums the whole table. */
  lemma FullDay(s: Store, date: int)
    requires s.receivedChargebacks != [] && InDay(s.receivedChargebacks, date) == s.receivedChargebacks
    requires s.issuedRepresentments != [] && InDay(s.issuedRepresentments, date) == s.issuedRepresentments
    requires s.issuedChargebacks != [] && InDay(s.issuedChargebacks, date) == s.issuedChargebacks
    requires s.receivedRepresentments != [] && InDay(s.receivedRepresentments, date) == s.receivedRepresentments
    ensures var v := GetDailyVolumes(s, date);
      && v.receivedChargebacks == Volume(|s.receivedChargebacks|, Text.CentsText(SumAmounts(s.receivedChargebacks)))
      && v.issuedRepresentments == Volume(|s.issuedRepresentments|, Text.CentsText(SumAmounts(s.issuedRepresentments)))
      && v.issuedChargebacks == Volume(|s.issuedChargebacks|, Text.CentsText(SumAmounts(s.issuedChargebacks)))
      && v.receivedRepresentments == Volume(|s.receivedRepresentments|, Text.CentsText(SumAmounts(s.receivedRepresentments)))
  {
  }

  /** The tables' `sum(amountCp)`. */
  lemma SeedSums()
    ensures SumAmounts(SeedReceivedChargebacks) == 257575
    ensures SumAmounts(SeedIssuedRepresentments) == 157125
    ensures SumAmounts(SeedIssuedChargebacks) == 80630
    ensures SumAmounts(SeedReceivedRepresentments) == 68090
  {
    SumStep(SeedReceivedChargebacks);
    assert SeedReceivedChargebacks[1..] == [Rcb2, Rcb3];
    SumStep([Rcb2, Rcb3]);
    SumStep([Rcb3]);
    SumStep(SeedIssuedRepresentments);
    assert SeedIssuedRepresentments[1..] == [Ire2];
    SumStep([Ire2]);
    SumStep(SeedIssuedChargebacks);
    assert SeedIssuedChargebacks[1..] == [Icb2];
    SumStep([Icb2]);
    SumStep(SeedReceivedRepresentments);
  }

  lemma SumStep(rs: seq<Record>)
    requires rs != []
    ensures SumAmounts(rs) == rs[0].amountCp + SumAmounts(rs[1..])
    ensures |rs| == 1 ==> SumAmounts(rs) == rs[0].amountCp
  {
  }

  /** On the seed, one received chargeback of three is linked (to the first
      issued representment) and one issued chargeback of two (to the received
      representment), so the card shows 40%. */
  lemma SeedMatching()
    ensures MatchingRecords(Seed()) == MatchingStats(1, 3, 1, 2)
    ensures MatchingRate.OverallRate(MatchingRecords(Seed())) == 40.0
  {
    SeedJoins();
  }

  /** The two inner joins' row counts. */
  lemma SeedJoins()
    ensures JoinCount([Rcb1, Rcb2, Rcb3], [Ire1, Ire2]) == 1
    ensures JoinCount([Icb1, Icb2], [Rre1]) == 1
  {
    var ire, rre := [Ire1, Ire2], [Rre1];
    CountStep(Key(Rcb1), Ire2, []);
    CountStep(Key(Rcb1), Ire1, [Ire2]);
    CountStep(Key(Rcb2), Ire2, []);
    CountStep(Key(Rcb2), Ire1, [Ire2]);
    CountStep(Key(Rcb3), Ire2, []);
    CountStep(Key(Rcb3), Ire1, [Ire2]);
    JoinStep(Rcb3, [], ire);
    JoinStep(Rcb2, [Rcb3], ire);
    JoinStep(Rcb1, [Rcb2, Rcb3], ire);
    CountStep(Key(Icb1), Rre1, []);
    CountStep(Key(Icb2), Rre1, []);
    JoinStep(Icb2, [], rre);
    JoinStep(Icb1, [Icb2], rre);
  }

  lemma CountStep(k: MatchKey, r: Record, rs: seq<Record>)
    ensures CountKey(k, [r] + rs) == (if Key(r) == k then 1 else 0) + CountKey(k, rs)
  {
    assert ([r] + rs)[1..] == rs;
  }

  lemma JoinStep(cb: Record, cbs: seq<Record>, reps: seq<Record>)
    ensures JoinCount([cb] + cbs, reps) == CountKey(Key(cb), reps) + JoinCount(cbs, reps)
  {
    assert ([cb] + cbs)[1..] == cbs;
  }

  lemma KeysStep(rs: seq<Record>, r: Record, key: Record -> GroupKey)
    ensures Keys(rs + [r], key) == if key(r) in Keys(rs, key) then Keys(rs, key) else Keys(rs, key) + [key(r)]
  {
    assert (rs + [r])[..|rs|] == rs;
  }

  lemma FilterThree(a: Record, b: Record, c: Record, p: Record -> bool)
    ensures Filter([a, b, c], p) == (if p(a) then [a] else []) + (if p(b) then [b] else []) + (if p(c) then [c] else [])
  {
    assert Filter([c], p) == if p(c) then [c] else [] by {
      assert [c][1..] == [];
    }
    assert Filter([b, c], p) == (if p(b) then [b] else []) + Filter([c], p) by {
      assert [b, c][1..] == [c];
    }
    assert [a, b, c][1..] == [b, c];
  }

  /** Of three rows, the key of exactly one selects that row alone. */
  lemma OnlyOneSelected(a: Record, b: Record, c: Record, key: Record -> GroupKey, x: Record)
    requires key(a) != key(b) && key(a) != key(c) && key(b) != key(c)
    requires x == a || x == b || x == c
    ensures Filter([a, b, c], KeyTest(key, key(x))) == [x]
  {
    FilterThree(a, b, c, KeyTest(key, key(x)));
  }

  /** Three rows with three distinct keys have those keys, in table order. */
  lemma KeysOfThree(a: Record, b: Record, c: Record, key: Record -> GroupKey)
    requires key(a) != key(b) && key(a) != key(c) && key(b) != key(c)
    ensures Keys([a, b, c], key) == [key(a), key(b), key(c)]
  {
    assert Keys([a], key) == [key(a)] by {
      assert [a][..0] == [];
    }
    assert Keys([a, b], key) == [key(a), key(b)] by {
      assert [a, b][..1] == [a];
    }
    assert [a, b, c][..2] == [a, b];
  }

  /** Three rows with three distinct keys make three one-row groups, in
      table order. */
  lemma GroupsOfThree(a: Record, b: Record, c: Record, key: Record -> GroupKey)
    requires key(a) != key(b) && key(a) != key(c) && key(b) != key(c)
    ensures GroupBy([a, b, c], key) == [Group(key(a), [a]), Group(key(b), [b]), Group(key(c), [c])]
  {
    KeysOfThree(a, b, c, key);
    OnlyOneSelected(a, b, c, key, a);
    OnlyOneSelected(a, b, c, key, b);
    OnlyOneSelected(a, b, c, key, c);
    var gs := GroupBy([a, b, c], key);
    assert gs[0] == Group(key(a), [a]);
    assert gs[1] == Group(key(b), [b]);
    assert gs[2] == Group(key(c), [c]);
  }

  /** Three groups already in non-increasing volume order stay in place. */
  lemma SortedThree(g1: Group, g2: Group, g3: Group)
    requires GroupVolume(g1) >= GroupVolume(g2) >= GroupVolume(g3)
    ensures SortDesc([g1, g2, g3], GroupVolume) == [g1, g2, g3]
  {
    assert SortDesc([g3], GroupVolume) == [g3] by {
      assert [g3][1..] == [];
    }
    assert SortDesc([g2, g3], GroupVolume) == [g2, g3] by {
      assert [g2, g3][1..] == [g3];
    }
    assert [g1, g2, g3][1..] == [g2, g3];
  }

  /** The day's issuer groups on the seed, ranked. */
  lemma SeedIssuerRanking(date: int)
    requires DayOf(date) == Dec9
    ensures GroupsOfDay(Seed(), date, IssuerKey, 5) ==
      [Group(IssuerKey(Rcb1), [Rcb1]), Group(IssuerKey(Rcb2), [Rcb2]), Group(IssuerKey(Rcb3), [Rcb3])]
  {
    SeedOnDay(date);
    GroupsOfThree(Rcb1, Rcb2, Rcb3, IssuerKey);
    SeedSumsOne();
    SortedThree(Group(IssuerKey(Rcb1), [Rcb1]), Group(IssuerKey(Rcb2), [Rcb2]), Group(IssuerKey(Rcb3), [Rcb3]));
    var gs := [Group(IssuerKey(Rcb1), [Rcb1]), Group(IssuerKey(Rcb2), [Rcb2]), Group(IssuerKey(Rcb3), [Rcb3])];
    assert Page(gs, 5, 0) == gs;
  }

  /** The day's issuer ranking on the seed: the three received chargebacks'
      issuers, largest volume first. */
  lemma SeedTopIssuers(date: int)
    requires DayOf(date) == Dec9
    ensures var r := TopIssuers(Seed(), date, 5);
      && |r| == 3
      && r[0] == IssuerRow("BNP PARIBAS", "BNP Paribas France", Text.CentsText(125050), 1)
      && r[1] == IssuerRow("CREDIT AGRICOLE", "Cr\U{00E9}dit Agricole Centre France", Text.CentsText(87525), 1)
      && r[2] == IssuerRow("SOCIETE GENERALE", "Soci\U{00E9}t\U{00E9} G\U{00E9}n\U{00E9}rale", Text.CentsText(45000), 1)
  {
    SeedIssuerRanking(date);
    var gs := GroupsOfDay(Seed(), date, IssuerKey, 5);
    var r := TopIssuers(Seed(), date, 5);
    assert |r| == 3;
    assert r[0] == IssuerRowOf(gs[0]);
    assert r[1] == IssuerRowOf(gs[1]);
    assert r[2] == IssuerRowOf(gs[2]);
    RowOfSingle(Rcb1);
    RowOfSingle(Rcb2);
    RowOfSingle(Rcb3);
  }

  /** The row of a one-record group shows that record's bank and amount. */
  lemma RowOfSingle(x: Record)
    ensures IssuerRowOf(Group(IssuerKey(x), [x])) ==
      IssuerRow(OrEmpty(x.issuer), OrEmpty(x.libBank), Text.CentsText(x.amountCp), 1)
  {
    SumStep([x]);
  }

  lemma SeedSumsOne()
    ensures SumAmounts([Rcb1]) == 125050 && SumAmounts([Rcb2]) == 87525 && SumAmounts([Rcb3]) == 45000
  {
    SumStep([Rcb1]);
    SumStep([Rcb2]);
    SumStep([Rcb3]);
  }
}
