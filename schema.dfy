/** The four dispute-record tables: received chargebacks, issued
    representments, issued chargebacks and received representments. They share
    one shape; `libBank` is a column of the first two only. Timestamps are
    milliseconds since the epoch and `decimal(12, 2)` amounts are integer
    cents. */
module Schema {
  import opened Maybe
  import Text

  /** The four collections, in the order the dashboard queries them. */
  datatype Category = ReceivedChargeback | IssuedRepresentment | IssuedChargeback | ReceivedRepresentment

  /** The columns the dashboard reads. Required (`notNull`) columns are plain
      values, nullable ones are `Option`s. */
  datatype Record = Record(
    id: int,
    refFichier: string,
    dateTraitementRpa: int,
    numAffiliation: string,
    libCommercant: string,
    agence: string,
    compte: string,
    amountCp: int,
    amountOrigine: int,
    processing: Option<string>,
    transactionDate: int,
    authorization: string,
    issuer: Option<string>,
    libBank: Option<string>,
    acquirer: Option<string>,
    acquirerRef: string)

  /** The composite business key linking a chargeback to its representment. */
  datatype MatchKey = MatchKey(numAffiliation: string, agence: string, compte: string,
                               authorization: string, acquirerRef: string)

  function Key(r: Record): (k: MatchKey)
    ensures k.numAffiliation == r.numAffiliation && k.agence == r.agence && k.compte == r.compte
    ensures k.authorization == r.authorization && k.acquirerRef == r.acquirerRef
  {
    MatchKey(r.numAffiliation, r.agence, r.compte, r.authorization, r.acquirerRef)
  }

  /** Two records are linked when their five key columns agree. */
  lemma KeyIff(a: Record, b: Record)
    ensures Key(a) == Key(b) <==>
      (a.numAffiliation == b.numAffiliation && a.agence == b.agence && a.compte == b.compte
       && a.authorization == b.authorization && a.acquirerRef == b.acquirerRef)
  {
  }

  /** `decimal(12, 2)`: twelve significant digits, two after the point. */
  const MaxCents: int := 1_000_000_000_000

  predicate ValidAmount(cents: int)
  {
    -MaxCents < cents < MaxCents
  }

  /** A valid amount renders in at most 14 characters: a sign, ten integer
      digits, the point and two decimals. */
  lemma {:induction false} AmountTextLength(cents: int)
    requires ValidAmount(cents)
    ensures |Text.CentsText(cents)| <= 14
  {
    var a := if cents < 0 then -cents else cents;
    assert Text.Pow10(10) == 10_000_000_000 by {
      assert Text.Pow10(2) == 100;
      assert Text.Pow10(5) == 100_000;
    }
    Text.NatTextLength(a / 100, 10);
  }

  /** Only received chargebacks and issued representments have `libBank`. */
  predicate HasLibBank(c: Category)
  {
    c == ReceivedChargeback || c == IssuedRepresentment
  }

  predicate ValidRecord(r: Record, c: Category)
  {
    r.id > 0 && ValidAmount(r.amountCp) && ValidAmount(r.amountOrigine)
    && (!HasLibBank(c) ==> r.libBank.None?)
  }

  /** The database: one sequence of rows per table. */
  datatype Store = Store(
    receivedChargebacks: seq<Record>,
    issuedRepresentments: seq<Record>,
    issuedChargebacks: seq<Record>,
    receivedRepresentments: seq<Record>)

  function Collection(s: Store, c: Category): seq<Record>
  {
    match c
    case ReceivedChargeback => s.receivedChargebacks
    case IssuedRepresentment => s.issuedRepresentments
    case IssuedChargeback => s.issuedChargebacks
    case ReceivedRepresentment => s.receivedRepresentments
  }

  /** Every row is valid and each table's serial primary key is unique. */
  predicate ValidStore(s: Store)
  {
    forall c: Category ::
      (forall i :: 0 <= i < |Collection(s, c)| ==> ValidRecord(Collection(s, c)[i], c))
      && (forall i, j :: 0 <= i < j < |Collection(s, c)| ==> Collection(s, c)[i].id != Collection(s, c)[j].id)
  }
}
