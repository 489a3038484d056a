/**
 * The importer crate's TransactionBuilder. `add_operation(mut self, ..)` takes
 * the builder by value, updates its fields and hands it back, and
 * `build(self)` moves the fields into a Transaction. Ownership makes the
 * builder a value: it is a datatype here, and AddOperation updates a local
 * copy field by field.
 *
 * Unlike the core builder, `build` checks only the dates.
 */
module ImporterTransaction {
  import opened Domain

  datatype TransactionBuilder = TransactionBuilder(
    operations: seq<Operation>,
    ledgers: set<Ledger>,
    startedAt: Option<int>,
    finishedAt: Option<int>)

  /** `TransactionBuilder::default()`. */
  const Empty: TransactionBuilder := TransactionBuilder([], {}, None, None)

  /** The same invariant the core builder keeps (Domain.Tracks). */
  ghost predicate Valid(b: TransactionBuilder)
  {
    Tracks(b.operations, b.ledgers, b.startedAt, b.finishedAt)
  }

  lemma EmptyIsValid()
    ensures Valid(Empty)
  {
  }

  /** Returns the builder with `operation` added: its ledger joins the set, the dates widen, it goes last. */
  method AddOperation(builder: TransactionBuilder, operation: Operation) returns (r: TransactionBuilder)
    ensures r.operations == builder.operations + [operation]
    ensures r.ledgers == builder.ledgers + {operation.ledger}
    ensures builder.startedAt.None? && builder.finishedAt.None? ==>
              r.startedAt == Some(operation.executedAt) && r.finishedAt == Some(operation.executedAt)
    ensures builder.startedAt.Some? ==>
              r.startedAt == Some(if operation.executedAt < builder.startedAt.value then operation.executedAt else builder.startedAt.value)
    ensures builder.finishedAt.Some? ==>
              r.finishedAt == Some(if operation.executedAt > builder.finishedAt.value then operation.executedAt else builder.finishedAt.value)
    ensures builder.startedAt.None? && builder.finishedAt.Some? ==> r.startedAt == None
    ensures builder.startedAt.Some? && builder.finishedAt.None? ==> r.finishedAt == None
    ensures Valid(builder) ==> Valid(r)
  {
    var executedAt := operation.executedAt;
    r := builder;

    r := r.(ledgers := r.ledgers + {operation.ledger});

    if r.startedAt.Some? {
      if executedAt < r.startedAt.value {
        r := r.(startedAt := Some(executedAt));
      }
    }

    if r.finishedAt.Some? {
      if executedAt > r.finishedAt.value {
        r := r.(finishedAt := Some(executedAt));
      }
    }

    if r.startedAt.None? && r.finishedAt.None? {
      r := r.(startedAt := Some(executedAt), finishedAt := Some(executedAt));
    }

    r := r.(operations := r.operations + [operation]);

    if Valid(builder) {
      TracksAppend(builder.operations, builder.ledgers, builder.startedAt, builder.finishedAt, operation, r.startedAt, r.finishedAt);
    }
  }

  /**
   * `build(self)`: succeeds exactly when both dates are set, moving the
   * fields into the Transaction; otherwise fails with "Missing dates".
   */
  function Build(b: TransactionBuilder): (r: Result<Transaction, string>)
    ensures r.Ok? <==> b.startedAt.Some? && b.finishedAt.Some?
    ensures r.Ok? ==> r.value.operations == b.operations && r.value.ledgers == b.ledgers
    ensures r.Ok? ==> r.value.startedAt == b.startedAt.value && r.value.finishedAt == b.finishedAt.value
    ensures r.Err? ==> r.error == "Missing dates"
  {
    if b.startedAt.Some? && b.finishedAt.Some? then
      Ok(Transaction(b.operations, b.ledgers, b.startedAt.value, b.finishedAt.value))
    else
      Err("Missing dates")
  }

  /**
   * On a builder that kept its invariant, build succeeds exactly when an
   * operation was added, and the transaction it returns is consistent.
   */
  lemma BuildValid(b: TransactionBuilder)
    requires Valid(b)
    ensures Build(b).Ok? <==> b.operations != []
    ensures Build(b).Ok? ==> Build(b).value == TransactionOf(b.operations) && Consistent(Build(b).value)
    ensures Build(b).Ok? ==> Build(b).value.startedAt <= Build(b).value.finishedAt
  {
    if b.operations != [] {
      TransactionOfIsConsistent(b.operations);
    }
  }

  /** A fresh builder fails with "Missing dates" rather than "Missing operations". */
  lemma BuildEmpty()
    ensures Build(Empty) == Err("Missing dates")
  {
  }

  /** Two adds to a fresh builder followed by build always succeed (the crate's Arbitrary Transaction). */
  method BuildPair(op1: Operation, op2: Operation) returns (t: Transaction)
    ensures t == TransactionOf([op1, op2])
    ensures t.ledgers == {op1.ledger, op2.ledger}
    ensures t.startedAt == (if op2.executedAt < op1.executedAt then op2.executedAt else op1.executedAt)
    ensures t.finishedAt == (if op2.executedAt > op1.executedAt then op2.executedAt else op1.executedAt)
  {
    var b := AddOperation(Empty, op1);
    b := AddOperation(b, op2);
    assert b.operations == [op1, op2];
    BuildValid(b);
    t := Build(b).value;
    assert [op1, op2][..1] == [op1];
    assert LedgersOf([op1, op2]) == {op1.ledger, op2.ledger} by {
      LedgersOfAppend([op1], op2);
      assert [op1] + [op2] == [op1, op2];
    }
  }

  /** Folding AddOperation over `ops` from a fresh builder and building. */
  method BuildFrom(ops: seq<Operation>) returns (r: Result<Transaction, string>)
    ensures ops == [] ==> r == Err("Missing dates")
    ensures ops != [] ==> r == Ok(TransactionOf(ops))
  {
    var builder := Empty;
    for i := 0 to |ops|
      invariant Valid(builder)
      invariant builder.operations == ops[..i]
    {
      builder := AddOperation(builder, ops[i]);
      assert ops[..i + 1] == ops[..i] + [ops[i]];
    }
    assert ops[..|ops|] == ops;
    BuildValid(builder);
    r := Build(builder);
  }
}
