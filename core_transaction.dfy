/**
 * The core crate's TransactionBuilder: a mutable accumulator that
 * `add_operation(&mut self, ..)` updates in place and `build(&mut self)`
 * reads without changing.
 */
module CoreTransaction {
  import opened Domain

  class TransactionBuilder {
    var operations: seq<Operation>
    var ledgers: set<Ledger>
    var startedAt: Option<int>
    var finishedAt: Option<int>

    /** The builder's invariant, kept by every operation (Domain.Tracks). */
    ghost predicate Valid()
      reads this
    {
      Tracks(operations, ledgers, startedAt, finishedAt)
    }

    /** `TransactionBuilder::default()`. */
    constructor ()
      ensures Valid()
      ensures operations == [] && ledgers == {} && startedAt == None && finishedAt == None
    {
      operations, ledgers, startedAt, finishedAt := [], {}, None, None;
    }

    /** Adds one operation: its ledger joins the set, the dates widen to its time, it goes last. */
    method AddOperation(operation: Operation)
      modifies this
      ensures operations == old(operations) + [operation]
      ensures ledgers == old(ledgers) + {operation.ledger}
      ensures old(startedAt).None? && old(finishedAt).None? ==>
                startedAt == Some(operation.executedAt) && finishedAt == Some(operation.executedAt)
      ensures old(startedAt).Some? ==>
                startedAt == Some(if operation.executedAt < old(startedAt).value then operation.executedAt else old(startedAt).value)
      ensures old(finishedAt).Some? ==>
                finishedAt == Some(if operation.executedAt > old(finishedAt).value then operation.executedAt else old(finishedAt).value)
      ensures old(startedAt).None? && old(finishedAt).Some? ==> startedAt == None
      ensures old(startedAt).Some? && old(finishedAt).None? ==> finishedAt == None
      ensures old(Valid()) ==> Valid()
    {
      var executedAt := operation.executedAt;
      ghost var wasValid := Valid();
      ghost var before, ledgersBefore, startedBefore, finishedBefore := operations, ledgers, startedAt, finishedAt;

      ledgers := ledgers + {operation.ledger};

      if startedAt.Some? {
        if executedAt < startedAt.value {
          startedAt := Some(executedAt);
        }
      }

      if finishedAt.Some? {
        if executedAt > finishedAt.value {
          finishedAt := Some(executedAt);
        }
      }

      if startedAt.None? && finishedAt.None? {
        startedAt := Some(executedAt);
        finishedAt := Some(executedAt);
      }

      operations := operations + [operation];

      if wasValid {
        TracksAppend(before, ledgersBefore, startedBefore, finishedBefore, operation, startedAt, finishedAt);
      }
    }

    /**
     * Snapshots the builder: fails with "Missing operations" when nothing was
     * added, with "Missing dates" when a date is unset, and otherwise returns
     * the accumulated state as a Transaction. The builder is not changed.
     */
    method Build() returns (r: Result<Transaction, string>)
      ensures operations == [] ==> r == Err("Missing operations")
      ensures operations != [] && startedAt.Some? && finishedAt.Some? ==>
                r == Ok(Transaction(operations, ledgers, startedAt.value, finishedAt.value))
      ensures operations != [] && (startedAt.None? || finishedAt.None?) ==> r == Err("Missing dates")
      ensures Valid() ==> (r.Ok? <==> operations != [])
      ensures Valid() && r.Ok? ==> r.value == TransactionOf(operations) && Consistent(r.value)
      ensures Valid() && r.Ok? ==> r.value.startedAt <= r.value.finishedAt
    {
      if operations == [] {
        return Err("Missing operations");
      }
      if startedAt.Some? && finishedAt.Some? {
        r := Ok(Transaction(operations, ledgers, startedAt.value, finishedAt.value));
        if Valid() {
          TransactionOfIsConsistent(operations);
        }
      } else {
        r := Err("Missing dates");
      }
    }
  }

  /** A fresh builder refuses to build. */
  method BuildWithoutOperations() returns (r: Result<Transaction, string>)
    ensures r == Err("Missing operations")
  {
    var builder := new TransactionBuilder();
    r := builder.Build();
  }

  /**
   * Adding the operations one at a time to a fresh builder and building
   * yields their transaction exactly when at least one was added.
   */
  method BuildFrom(ops: seq<Operation>) returns (r: Result<Transaction, string>)
    ensures ops == [] ==> r == Err("Missing operations")
    ensures ops != [] ==> r == Ok(TransactionOf(ops))
  {
    var builder := new TransactionBuilder();
    for i := 0 to |ops|
      invariant builder.Valid()
      invariant builder.operations == ops[..i]
    {
      builder.AddOperation(ops[i]);
      assert ops[..i + 1] == ops[..i] + [ops[i]];
    }
    assert ops[..|ops|] == ops;
    r := builder.Build();
  }
}
