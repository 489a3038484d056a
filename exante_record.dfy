/**
 * One row of an Exante broker export, after deserialization. The core crate
 * names this type RawRecord and the importer crate Record; both have the
 * same nine fields. `when` is the already-parsed UTC timestamp in seconds and
 * `sum` the signed amount in minor units.
 *
 * The kind rule and the magnitude rule are identical in both crates and are
 * stated once here.
 */
module ExanteRecord {
  import opened Domain

  datatype Record = Record(
    txId: string,
    accountId: string,
    symbolId: string,
    isin: string,
    operationType: string,
    when: int,
    sum: int,
    asset: string,
    uuid: string)

  /** The literal that marks a row without a security. */
  const NoIsin: string := "None"

  /** The grouping key of a row: its execution time. */
  function When(r: Record): int
  {
    r.when
  }

  /** The sign-based classification: strictly positive is a deposit, anything else a withdrawal. */
  function KindOf(sum: int): (k: OperationKind)
    ensures k == Inflow(Deposit) <==> sum > 0
    ensures k == Outflow(Withdrawal) <==> sum <= 0
  {
    if sum > 0 then Inflow(Deposit) else Outflow(Withdrawal)
  }

  /** The magnitude of the signed amount. */
  function Magnitude(sum: int): (v: nat)
    ensures v == sum || v == -sum
  {
    if sum < 0 then -sum else sum
  }

  /** The signed amount an operation stands for: positive for an inflow, negative for an outflow. */
  function SignedValue(kind: OperationKind, value: nat): int
  {
    if kind.Inflow? then value else -(value as int)
  }

  /** Kind and magnitude together lose nothing: the signed amount is recovered from them. */
  lemma SignRecovered(sum: int)
    ensures SignedValue(KindOf(sum), Magnitude(sum)) == sum
  {
  }

  /** 10000.00 is a deposit of 10000.00, -49.99 a withdrawal of 49.99, and zero a withdrawal. */
  lemma KindExamples()
    ensures KindOf(1000000) == Inflow(Deposit) && Magnitude(1000000) == 1000000
    ensures KindOf(-4999) == Outflow(Withdrawal) && Magnitude(-4999) == 4999
    ensures KindOf(0) == Outflow(Withdrawal)
  {
  }
}
