/** Linking chargebacks to representments on the five-column composite key
    (`getMatchingRecords`). The server counts the rows of an inner join, that
    is (chargeback, representment) pairs; the per-chargeback count it is
    meant to report is the semi-join. */
module Matching {
  import opened Schema

  /** Number of rows of `reps` whose key is `k`. */
  function CountKey(k: MatchKey, reps: seq<Record>): (n: nat)
    ensures n <= |reps|
    ensures n == 0 <==> forall j :: 0 <= j < |reps| ==> Key(reps[j]) != k
  {
    if reps == [] then 0
    else (if Key(reps[0]) == k then 1 else 0) + CountKey(k, reps[1..])
  }

  /** `SELECT count(*) FROM cbs INNER JOIN reps ON <five keys equal>`: every
      chargeback contributes one row per representment sharing its key. */
  function JoinCount(cbs: seq<Record>, reps: seq<Record>): nat
  {
    if cbs == [] then 0
    else CountKey(Key(cbs[0]), reps) + JoinCount(cbs[1..], reps)
  }

  /** The chargeback has at least one representment with its key. */
  predicate HasMatch(cb: Record, reps: seq<Record>)
  {
    exists j :: 0 <= j < |reps| && Key(reps[j]) == Key(cb)
  }

  /** Number of chargebacks that have at least one matching representment. */
  function SemiJoinCount(cbs: seq<Record>, reps: seq<Record>): (n: nat)
    ensures n <= |cbs|
    ensures n == 0 <==> forall i :: 0 <= i < |cbs| ==> !HasMatch(cbs[i], reps)
  {
    if cbs == [] then 0
    else (if HasMatch(cbs[0], reps) then 1 else 0) + SemiJoinCount(cbs[1..], reps)
  }

  /** Without representments nothing is linked. */
  lemma {:induction false} JoinCountNoReps(cbs: seq<Record>)
    ensures JoinCount(cbs, []) == 0
  {
    if cbs != [] {
      JoinCountNoReps(cbs[1..]);
    }
  }

  /** A chargeback appended to the table adds as many join rows as it has
      matching representments. */
  lemma {:induction false} JoinCountAppend(cbs: seq<Record>, cb: Record, reps: seq<Record>)
    ensures JoinCount(cbs + [cb], reps) == JoinCount(cbs, reps) + CountKey(Key(cb), reps)
  {
    if cbs == [] {
      assert [cb][1..] == [];
    } else {
      assert (cbs + [cb])[1..] == cbs[1..] + [cb];
      JoinCountAppend(cbs[1..], cb, reps);
    }
  }

  lemma {:induction false} JoinCountConsRight(cbs: seq<Record>, x: Record, reps: seq<Record>)
    ensures JoinCount(cbs, [x] + reps) == CountKey(Key(x), cbs) + JoinCount(cbs, reps)
  {
    assert ([x] + reps)[1..] == reps;
    if cbs != [] {
      JoinCountConsRight(cbs[1..], x, reps);
    }
  }

  /** The join count does not depend on which side is the driving table. */
  lemma {:induction false} JoinCountSymmetric(a: seq<Record>, b: seq<Record>)
    ensures JoinCount(a, b) == JoinCount(b, a)
  {
    if b == [] {
      JoinCountNoReps(a);
    } else {
      assert b == [b[0]] + b[1..];
      JoinCountConsRight(a, b[0], b[1..]);
      JoinCountSymmetric(a, b[1..]);
    }
  }

  /** Every linked chargeback yields at least one join row. */
  lemma {:induction false} SemiJoinAtMostJoin(cbs: seq<Record>, reps: seq<Record>)
    ensures SemiJoinCount(cbs, reps) <= JoinCount(cbs, reps)
  {
    if cbs != [] {
      SemiJoinAtMostJoin(cbs[1..], reps);
      if HasMatch(cbs[0], reps) {
        var j :| 0 <= j < |reps| && Key(reps[j]) == Key(cbs[0]);
        assert CountKey(Key(cbs[0]), reps) > 0;
      }
    }
  }

  /** Representment keys are pairwise distinct. */
  predicate UniqueKeys(reps: seq<Record>)
  {
    forall i, j :: 0 <= i < j < |reps| ==> Key(reps[i]) != Key(reps[j])
  }

  lemma {:induction false} CountKeyUnique(k: MatchKey, reps: seq<Record>)
    requires UniqueKeys(reps)
    ensures CountKey(k, reps) <= 1
  {
    if reps != [] {
      assert UniqueKeys(reps[1..]) by {
        assert forall i :: 0 <= i < |reps| - 1 ==> reps[1..][i] == reps[i + 1];
      }
      CountKeyUnique(k, reps[1..]);
      if Key(reps[0]) == k {
        assert forall j :: 0 <= j < |reps[1..]| ==> Key(reps[1..][j]) != k by {
          assert forall j :: 0 <= j < |reps[1..]| ==> reps[1..][j] == reps[j + 1];
        }
      }
    }
  }

  /** When no two representments share a key, the join count is the number of
      linked chargebacks, hence at most the number of chargebacks. */
  lemma {:induction false} JoinIsSemiJoinWhenUnique(cbs: seq<Record>, reps: seq<Record>)
    requires UniqueKeys(reps)
    ensures JoinCount(cbs, reps) == SemiJoinCount(cbs, reps) <= |cbs|
  {
    if cbs != [] {
      JoinIsSemiJoinWhenUnique(cbs[1..], reps);
      CountKeyUnique(Key(cbs[0]), reps);
      if HasMatch(cbs[0], reps) {
        var j :| 0 <= j < |reps| && Key(reps[j]) == Key(cbs[0]);
        assert CountKey(Key(cbs[0]), reps) > 0;
      }
    }
  }

  /** Result of `getMatchingRecords`. */
  datatype MatchingStats = MatchingStats(
    receivedChargebacksLinked: nat,
    receivedChargebacksTotal: nat,
    issuedChargebacksLinked: nat,
    issuedChargebacksTotal: nat)

  /** `getMatchingRecords` as written: received chargebacks are joined with
      issued representments, issued chargebacks with received representments,
      and the joins' row counts are reported as linked counts. */
  function MatchingRecords(s: Store): (m: MatchingStats)
    ensures m.receivedChargebacksTotal == |s.receivedChargebacks|
    ensures m.issuedChargebacksTotal == |s.issuedChargebacks|
    ensures m.receivedChargebacksLinked == JoinCount(s.receivedChargebacks, s.issuedRepresentments)
    ensures m.issuedChargebacksLinked == JoinCount(s.issuedChargebacks, s.receivedRepresentments)
  {
    MatchingStats(
      JoinCount(s.receivedChargebacks, s.issuedRepresentments),
      |s.receivedChargebacks|,
      JoinCount(s.issuedChargebacks, s.receivedRepresentments),
      |s.issuedChargebacks|)
  }

  /** Empty tables on either side give no links. */
  lemma MatchingRecordsEmpty(s: Store)
    requires s.receivedChargebacks == [] || s.issuedRepresentments == []
    requires s.issuedChargebacks == [] || s.receivedRepresentments == []
    ensures MatchingRecords(s).receivedChargebacksLinked == 0
    ensures MatchingRecords(s).issuedChargebacksLinked == 0
  {
    JoinCountNoReps(s.receivedChargebacks);
    JoinCountNoReps(s.issuedChargebacks);
  }

  /** As written, one chargeback with two representments under its key is
      reported as two linked chargebacks out of one, on a store the
      database can hold. */
  lemma LinkedExceedsTotal(cb: Record, rep1: Record, rep2: Record)
    requires ValidRecord(cb, ReceivedChargeback)
    requires ValidRecord(rep1, IssuedRepresentment) && ValidRecord(rep2, IssuedRepresentment)
    requires rep1.id != rep2.id
    requires Key(rep1) == Key(cb) && Key(rep2) == Key(cb)
    ensures var s := Store([cb], [rep1, rep2], [], []);
      && ValidStore(s)
      && MatchingRecords(s).receivedChargebacksLinked == 2 > MatchingRecords(s).receivedChargebacksTotal == 1
  {
    var s := Store([cb], [rep1, rep2], [], []);
    assert [rep1, rep2][1..] == [rep2];
    assert CountKey(Key(cb), [rep1, rep2]) == 2;
    assert JoinCount([cb], [rep1, rep2]) == 2;
  }

  /** The count meant by "linked": distinct chargebacks with at least one
      matching representment. */
  function DistinctMatchingRecords(s: Store): (m: MatchingStats)
    ensures m.receivedChargebacksTotal == |s.receivedChargebacks|
    ensures m.issuedChargebacksTotal == |s.issuedChargebacks|
    ensures m.receivedChargebacksLinked == SemiJoinCount(s.receivedChargebacks, s.issuedRepresentments)
    ensures m.issuedChargebacksLinked == SemiJoinCount(s.issuedChargebacks, s.receivedRepresentments)
    ensures m.receivedChargebacksLinked <= m.receivedChargebacksTotal
    ensures m.issuedChargebacksLinked <= m.issuedChargebacksTotal
  {
    MatchingStats(
      SemiJoinCount(s.receivedChargebacks, s.issuedRepresentments),
      |s.receivedChargebacks|,
      SemiJoinCount(s.issuedChargebacks, s.receivedRepresentments),
      |s.issuedChargebacks|)
  }

  /** The two agree whenever each representment table has unique keys. */
  lemma MatchingAgreesWhenUnique(s: Store)
    requires UniqueKeys(s.issuedRepresentments) && UniqueKeys(s.receivedRepresentments)
    ensures MatchingRecords(s) == DistinctMatchingRecords(s)
  {
    JoinIsSemiJoinWhenUnique(s.receivedChargebacks, s.issuedRepresentments);
    JoinIsSemiJoinWhenUnique(s.issuedChargebacks, s.receivedRepresentments);
  }
}
