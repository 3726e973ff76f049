/** The overall matching rate the matching card shows (`overallRate`), as an
    exact percentage. */
module MatchingRate {
  import opened Schema
  import opened Matching

  /** Linked over total, as a percentage, when both chargeback tables are
      non-empty; 0 otherwise. */
  function OverallRate(m: MatchingStats): real
  {
    if m.receivedChargebacksTotal > 0 && m.issuedChargebacksTotal > 0 then
      (m.receivedChargebacksLinked + m.issuedChargebacksLinked) as real
        / (m.receivedChargebacksTotal + m.issuedChargebacksTotal) as real * 100.0
    else 0.0
  }

  /** The rate is 0 unless both totals are positive, whatever is linked;
      otherwise it is the linked share of all chargebacks, in percent. */
  lemma RateCases(m: MatchingStats)
    ensures m.receivedChargebacksTotal == 0 || m.issuedChargebacksTotal == 0 ==> OverallRate(m) == 0.0
    ensures m.receivedChargebacksTotal > 0 && m.issuedChargebacksTotal > 0 ==>
      OverallRate(m) * (m.receivedChargebacksTotal + m.issuedChargebacksTotal) as real
        == (m.receivedChargebacksLinked + m.issuedChargebacksLinked) as real * 100.0
  {
  }

  /** When neither linked count exceeds its total, the rate is a percentage. */
  lemma RateBounds(m: MatchingStats)
    requires m.receivedChargebacksLinked <= m.receivedChargebacksTotal
    requires m.issuedChargebacksLinked <= m.issuedChargebacksTotal
    ensures 0.0 <= OverallRate(m) <= 100.0
  {
    if m.receivedChargebacksTotal > 0 && m.issuedChargebacksTotal > 0 {
      var linked := (m.receivedChargebacksLinked + m.issuedChargebacksLinked) as real;
      var total := (m.receivedChargebacksTotal + m.issuedChargebacksTotal) as real;
      ShareAtMostOne(linked, total);
    }
  }

  lemma ShareAtMostOne(x: real, y: real)
    requires 0.0 <= x <= y && y > 0.0
    ensures 0.0 <= x / y <= 1.0
  {
    var q := x / y;
    assert q * y == x;
    assert (1.0 - q) * y == y - x;
  }

  /** Swapping the received pair with the issued pair leaves the rate as it
      is. */
  lemma RateSymmetric(m: MatchingStats)
    ensures OverallRate(MatchingStats(m.issuedChargebacksLinked, m.issuedChargebacksTotal,
                                      m.receivedChargebacksLinked, m.receivedChargebacksTotal))
         == OverallRate(m)
  {
  }

  /** With per-chargeback counts, the card always shows a percentage. */
  lemma DistinctRateBounded(s: Store)
    ensures 0.0 <= OverallRate(DistinctMatchingRecords(s)) <= 100.0
  {
    RateBounds(DistinctMatchingRecords(s));
  }

  /** With the server's pair counts, a received chargeback with two issued
      representments under its key and an issued chargeback with one
      received representment show a rate of 150%, on a store the database
      can hold. */
  lemma PairRateExceedsHundred(cb1: Record, rep1: Record, rep2: Record, cb2: Record, rep3: Record)
    requires ValidRecord(cb1, ReceivedChargeback) && ValidRecord(cb2, IssuedChargeback)
    requires ValidRecord(rep1, IssuedRepresentment) && ValidRecord(rep2, IssuedRepresentment)
    requires ValidRecord(rep3, ReceivedRepresentment)
    requires rep1.id != rep2.id
    requires Key(rep1) == Key(cb1) && Key(rep2) == Key(cb1) && Key(rep3) == Key(cb2)
    ensures var s := Store([cb1], [rep1, rep2], [cb2], [rep3]);
      ValidStore(s) && OverallRate(MatchingRecords(s)) == 150.0
  {
    var s := Store([cb1], [rep1, rep2], [cb2], [rep3]);
    assert CountKey(Key(cb1), [rep1, rep2]) == 2 by {
      assert [rep1, rep2][1..] == [rep2];
      assert [rep2][1..] == [];
    }
    assert JoinCount([cb1], [rep1, rep2]) == 2 by {
      assert [cb1][1..] == [];
    }
    assert JoinCount([cb2], [rep3]) == 1 by {
      assert [cb2][1..] == [];
      assert [rep3][1..] == [];
    }
    var m := MatchingRecords(s);
    assert m == MatchingStats(2, 1, 1, 1);
  }
}
