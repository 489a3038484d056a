/**
 * The domain model both crates (packages/core and packages/importer) declare:
 * assets, ledgers, operations and transactions. The two crates carry
 * structurally identical copies of these types; they differ only in where the
 * values come from (the core crate validates an ISIN before building a
 * Security, the importer crate stores raw strings), which the modules
 * IsinFormat, CoreExante and ImporterExante model.
 *
 * The module also holds the reference definitions a well-formed Transaction
 * is measured against: the earliest and latest execution time of a sequence
 * of operations and the set of ledgers they touch.
 */
module Domain {

  datatype Option<+T> = None | Some(value: T)

  datatype Result<+T, +E> = Ok(value: T) | Err(error: E)

  /** International Securities Identification Number, kept as the string it was built from. */
  datatype Isin = Isin(code: string)

  /** Identifier of a non-security asset; no format is enforced. */
  datatype TokenId = TokenId(id: string)

  datatype FiatCurrency = USD | EUR

  datatype AssetId =
    | Security(isin: Isin)
    | Token(token: TokenId)
    | Currency(currency: FiatCurrency)

  /** `Asset::new(id, name)` is this constructor. */
  datatype Asset = Asset(id: AssetId, name: string)

  /** A named account; equality is equality of names. */
  datatype Ledger = Ledger(name: string)

  datatype OperationId = OperationId(uuid: string)

  datatype InflowOperation = Deposit | Income | Dividend | Reward

  datatype OutflowOperation = Withdrawal | Cost | Interest | Donation

  datatype OperationKind =
    | Inflow(inflow: InflowOperation)
    | Outflow(outflow: OutflowOperation)

  /**
   * One financial event. `value` is a non-negative amount in minor units,
   * `executedAt` a UTC timestamp in seconds.
   */
  datatype Operation = Operation(
    id: OperationId,
    kind: OperationKind,
    ledger: Ledger,
    asset: Asset,
    value: nat,
    executedAt: int)

  datatype Transaction = Transaction(
    operations: seq<Operation>,
    ledgers: set<Ledger>,
    startedAt: int,
    finishedAt: int)

  /** The smallest execution time among `ops`. */
  function Earliest(ops: seq<Operation>): int
    requires ops != []
  {
    var last := ops[|ops| - 1].executedAt;
    if |ops| == 1 then last
    else
      var rest := Earliest(ops[..|ops| - 1]);
      if last < rest then last else rest
  }

  /** The largest execution time among `ops`. */
  function Latest(ops: seq<Operation>): int
    requires ops != []
  {
    var last := ops[|ops| - 1].executedAt;
    if |ops| == 1 then last
    else
      var rest := Latest(ops[..|ops| - 1]);
      if last > rest then last else rest
  }

  /** The distinct ledgers touched by `ops`. */
  function LedgersOf(ops: seq<Operation>): set<Ledger>
  {
    set op | op in ops :: op.ledger
  }

  /** The transaction whose fields mirror the operations it holds. */
  function TransactionOf(ops: seq<Operation>): Transaction
    requires ops != []
  {
    Transaction(ops, LedgersOf(ops), Earliest(ops), Latest(ops))
  }

  /**
   * The invariants of a Transaction: at least one operation, the time span is
   * the minimum and maximum execution time of the operations, and the ledger
   * set is exactly the set of their ledgers.
   */
  ghost predicate Consistent(t: Transaction)
  {
    && t.operations != []
    && t.startedAt == Earliest(t.operations)
    && t.finishedAt == Latest(t.operations)
    && t.ledgers == LedgersOf(t.operations)
  }

  /** Earliest is a lower bound of every execution time and is attained. */
  lemma {:induction false} EarliestIsMinimum(ops: seq<Operation>)
    requires ops != []
    ensures forall i :: 0 <= i < |ops| ==> Earliest(ops) <= ops[i].executedAt
    ensures exists i :: 0 <= i < |ops| && ops[i].executedAt == Earliest(ops)
  {
    if |ops| > 1 {
      var init := ops[..|ops| - 1];
      EarliestIsMinimum(init);
      var k :| 0 <= k < |init| && init[k].executedAt == Earliest(init);
      assert ops[k] == init[k];
      var w := if ops[|ops| - 1].executedAt < Earliest(init) then |ops| - 1 else k;
      assert ops[w].executedAt == Earliest(ops);
      forall i | 0 <= i < |ops| ensures Earliest(ops) <= ops[i].executedAt {
        if i < |init| { assert ops[i] == init[i]; }
      }
    } else {
      assert ops[0].executedAt == Earliest(ops);
    }
  }

  /** Latest is an upper bound of every execution time and is attained. */
  lemma {:induction false} LatestIsMaximum(ops: seq<Operation>)
    requires ops != []
    ensures forall i :: 0 <= i < |ops| ==> ops[i].executedAt <= Latest(ops)
    ensures exists i :: 0 <= i < |ops| && ops[i].executedAt == Latest(ops)
  {
    if |ops| > 1 {
      var init := ops[..|ops| - 1];
      LatestIsMaximum(init);
      var k :| 0 <= k < |init| && init[k].executedAt == Latest(init);
      assert ops[k] == init[k];
      var w := if ops[|ops| - 1].executedAt > Latest(init) then |ops| - 1 else k;
      assert ops[w].executedAt == Latest(ops);
      forall i | 0 <= i < |ops| ensures ops[i].executedAt <= Latest(ops) {
        if i < |init| { assert ops[i] == init[i]; }
      }
    } else {
      assert ops[0].executedAt == Latest(ops);
    }
  }

  /** Appending one operation moves the span bounds by at most that operation's time. */
  lemma SpanAppend(ops: seq<Operation>, op: Operation)
    requires ops != []
    ensures Earliest(ops + [op]) == if op.executedAt < Earliest(ops) then op.executedAt else Earliest(ops)
    ensures Latest(ops + [op]) == if op.executedAt > Latest(ops) then op.executedAt else Latest(ops)
  {
    assert (ops + [op])[..|ops|] == ops;
  }

  /** Appending one operation adds exactly its ledger to the ledger set. */
  lemma LedgersOfAppend(ops: seq<Operation>, op: Operation)
    ensures LedgersOf(ops + [op]) == LedgersOf(ops) + {op.ledger}
  {
    forall l | l in LedgersOf(ops + [op]) ensures l in LedgersOf(ops) + {op.ledger} {
      var o :| o in ops + [op] && o.ledger == l;
      if o != op { assert o in ops; }
    }
  }

  /**
   * The invariant both TransactionBuilders keep over their four fields: the
   * dates are set exactly when some operation was added, and then they are
   * the earliest and the latest execution time; the ledger set is the set of
   * the added operations' ledgers.
   */
  ghost predicate Tracks(ops: seq<Operation>, ledgers: set<Ledger>, startedAt: Option<int>, finishedAt: Option<int>)
  {
    && (startedAt.None? <==> ops == [])
    && (finishedAt.None? <==> ops == [])
    && (ops != [] ==> startedAt == Some(Earliest(ops)) && finishedAt == Some(Latest(ops)))
    && ledgers == LedgersOf(ops)
  }

  /**
   * The step of `add_operation` keeps the invariant: the ledger joins the
   * set, unset dates become the operation's time, and set dates move only to
   * a strictly earlier start or a strictly later finish.
   */
  lemma TracksAppend(ops: seq<Operation>, ledgers: set<Ledger>, startedAt: Option<int>, finishedAt: Option<int>,
                     op: Operation, startedAt': Option<int>, finishedAt': Option<int>)
    requires Tracks(ops, ledgers, startedAt, finishedAt)
    requires startedAt.None? ==> startedAt' == Some(op.executedAt)
    requires finishedAt.None? ==> finishedAt' == Some(op.executedAt)
    requires startedAt.Some? ==>
               startedAt' == Some(if op.executedAt < startedAt.value then op.executedAt else startedAt.value)
    requires finishedAt.Some? ==>
               finishedAt' == Some(if op.executedAt > finishedAt.value then op.executedAt else finishedAt.value)
    ensures Tracks(ops + [op], ledgers + {op.ledger}, startedAt', finishedAt')
  {
    LedgersOfAppend(ops, op);
    if ops != [] {
      SpanAppend(ops, op);
    } else {
      assert ops + [op] == [op];
    }
  }

  /** A consistent transaction never ends before it starts. */
  lemma ConsistentIsOrdered(t: Transaction)
    requires Consistent(t)
    ensures t.startedAt <= t.finishedAt
  {
    EarliestIsMinimum(t.operations);
    LatestIsMaximum(t.operations);
  }

  /** When every operation executes at `w`, the span collapses to `w`. */
  lemma {:induction false} UniformSpan(ops: seq<Operation>, w: int)
    requires ops != []
    requires forall i :: 0 <= i < |ops| ==> ops[i].executedAt == w
    ensures Earliest(ops) == w && Latest(ops) == w
  {
    if |ops| > 1 {
      var init := ops[..|ops| - 1];
      forall i | 0 <= i < |init| ensures init[i].executedAt == w { assert init[i] == ops[i]; }
      UniformSpan(init, w);
    }
  }

  /** TransactionOf builds a transaction that satisfies every Transaction invariant. */
  lemma TransactionOfIsConsistent(ops: seq<Operation>)
    requires ops != []
    ensures Consistent(TransactionOf(ops))
    ensures TransactionOf(ops).startedAt <= TransactionOf(ops).finishedAt
  {
    ConsistentIsOrdered(TransactionOf(ops));
  }
}
