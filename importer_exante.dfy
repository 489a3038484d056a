/**
 * The importer crate's Exante pipeline: the total mapping of one row to an
 * Operation (`Into<Operation> for &Record`), which validates nothing and
 * stores the ISIN and UUID strings as they are, and
 * `group_records_into_transactions`, which builds one transaction per
 * maximal run of rows with the same `when`.
 */
module ImporterExante {
  import opened Domain
  import opened ExanteRecord
  import opened Grouping
  import ImporterTransaction

  /** `(&record).into()`. */
  function ToOperation(r: Record): (op: Operation)
    ensures op.id == OperationId(r.uuid)
    ensures op.kind.Inflow? <==> r.sum > 0
    ensures op.kind == Inflow(Deposit) || op.kind == Outflow(Withdrawal)
    ensures SignedValue(op.kind, op.value) == r.sum
    ensures op.asset.id == (if r.isin == NoIsin then Currency(USD) else Security(Isin(r.isin)))
    ensures op.ledger == Ledger(r.accountId) && op.asset.name == r.asset && op.executedAt == r.when
  {
    var assetId := if r.isin != NoIsin then Security(Isin(r.isin)) else Currency(USD);
    Operation(OperationId(r.uuid), KindOf(r.sum), Ledger(r.accountId), Asset(assetId, r.asset), Magnitude(r.sum), r.when)
  }

  /** The operations of a run of rows, one per row, in order. */
  function MapAll(g: seq<Record>): (ops: seq<Operation>)
    ensures |ops| == |g|
    ensures forall i :: 0 <= i < |g| ==> ops[i] == ToOperation(g[i])
  {
    seq(|g|, i requires 0 <= i < |g| => ToOperation(g[i]))
  }

  /** The transactions built for the runs `gs`: one per non-empty run, in run order. */
  function Expected(gs: seq<seq<Record>>): seq<Transaction>
  {
    if gs == [] then []
    else
      var g := gs[|gs| - 1];
      Expected(gs[..|gs| - 1]) + (if g == [] then [] else [TransactionOf(MapAll(g))])
  }

  /** The `filter_map` closure: a fresh builder, every row of the run added in order, then build. */
  method BuildRun(group: seq<Record>) returns (r: Result<Transaction, string>)
    ensures group == [] ==> r == Err("Missing dates")
    ensures group != [] ==> r == Ok(TransactionOf(MapAll(group)))
  {
    var builder := ImporterTransaction.Empty;
    for j := 0 to |group|
      invariant ImporterTransaction.Valid(builder)
      invariant builder.operations == MapAll(group[..j])
    {
      MapAllPrefix(group, j);
      builder := ImporterTransaction.AddOperation(builder, ToOperation(group[j]));
    }
    assert group[..|group|] == group;
    ImporterTransaction.BuildValid(builder);
    r := ImporterTransaction.Build(builder);
  }

  /** `group_records_into_transactions`: one transaction per run of equal times, in order. */
  method GroupRecordsIntoTransactions(records: seq<Record>) returns (txs: seq<Transaction>)
    ensures txs == Expected(Runs(records, When))
    ensures |txs| == |Runs(records, When)|
    ensures forall k :: 0 <= k < |txs| ==> Consistent(txs[k]) && txs[k].startedAt == txs[k].finishedAt
  {
    var groups := Runs(records, When);
    txs := [];
    for i := 0 to |groups|
      invariant txs == Expected(groups[..i])
    {
      var built := BuildRun(groups[i]);
      if built.Ok? {
        txs := txs + [built.value];
      }
      assert groups[..i + 1][..i] == groups[..i];
    }
    assert groups[..|groups|] == groups;
    RunsAreRunDecomposition(records, When);
    RunSpans(groups);
  }

  /** On non-empty runs, the k-th transaction is the transaction of the k-th run. */
  lemma {:induction false} OneTransactionPerRun(gs: seq<seq<Record>>)
    requires forall i :: 0 <= i < |gs| ==> gs[i] != []
    ensures |Expected(gs)| == |gs|
    ensures forall k :: 0 <= k < |gs| ==> Expected(gs)[k] == TransactionOf(MapAll(gs[k]))
  {
    if gs != [] {
      var init, g := gs[..|gs| - 1], gs[|gs| - 1];
      forall i | 0 <= i < |init| ensures init[i] != [] { assert init[i] == gs[i]; }
      OneTransactionPerRun(init);
      var txs := Expected(gs);
      assert txs == Expected(init) + [TransactionOf(MapAll(g))];
      forall k | 0 <= k < |gs| ensures txs[k] == TransactionOf(MapAll(gs[k])) {
        if k < |init| { assert gs[k] == init[k]; }
      }
    }
  }

  /** Each transaction of a run of equal times is consistent and spans exactly that time. */
  lemma RunSpans(gs: seq<seq<Record>>)
    requires UniformRuns(gs, When)
    ensures |Expected(gs)| == |gs|
    ensures forall k :: 0 <= k < |gs| ==>
              Consistent(Expected(gs)[k]) && Expected(gs)[k].startedAt == gs[k][0].when && Expected(gs)[k].finishedAt == gs[k][0].when
  {
    OneTransactionPerRun(gs);
    forall k | 0 <= k < |gs|
      ensures Consistent(Expected(gs)[k]) && Expected(gs)[k].startedAt == gs[k][0].when && Expected(gs)[k].finishedAt == gs[k][0].when
    {
      var ops := MapAll(gs[k]);
      assert forall j :: 0 <= j < |gs[k]| ==> When(gs[k][j]) == When(gs[k][0]);
      UniformSpan(ops, gs[k][0].when);
      TransactionOfIsConsistent(ops);
    }
  }

  /** Mapping distributes over concatenation. */
  lemma MapAllAppend(a: seq<Record>, b: seq<Record>)
    ensures MapAll(a + b) == MapAll(a) + MapAll(b)
  {
  }

  /** Mapping one more row of a run appends its operation. */
  lemma MapAllPrefix(g: seq<Record>, j: nat)
    requires j < |g|
    ensures MapAll(g[..j + 1]) == MapAll(g[..j]) + [ToOperation(g[j])]
  {
    assert g[..j + 1] == g[..j] + [g[j]];
    MapAllAppend(g[..j], [g[j]]);
  }

  /** The operations of the transactions, in order. */
  function OperationsOf(txs: seq<Transaction>): seq<seq<Operation>>
  {
    seq(|txs|, k requires 0 <= k < |txs| => txs[k].operations)
  }

  /** Concatenating the operations of the transactions in order gives back the mapped rows of the input. */
  lemma {:induction false} OperationsConcatenate(gs: seq<seq<Record>>)
    requires forall i :: 0 <= i < |gs| ==> gs[i] != []
    ensures Flatten(OperationsOf(Expected(gs))) == MapAll(Flatten(gs))
  {
    if gs != [] {
      var init, g := gs[..|gs| - 1], gs[|gs| - 1];
      forall i | 0 <= i < |init| ensures init[i] != [] { assert init[i] == gs[i]; }
      OperationsConcatenate(init);
      var txs := Expected(gs);
      assert txs == Expected(init) + [TransactionOf(MapAll(g))];
      assert OperationsOf(txs) == OperationsOf(Expected(init)) + [MapAll(g)];
      FlattenAppend(OperationsOf(Expected(init)), MapAll(g));
      MapAllAppend(Flatten(init), g);
    }
  }

  /** For the whole input: one transaction per run, and together they hold every row's operation in input order. */
  lemma PipelinePreservesOperations(records: seq<Record>)
    ensures |Expected(Runs(records, When))| == |Runs(records, When)|
    ensures Flatten(OperationsOf(Expected(Runs(records, When)))) == MapAll(records)
  {
    RunsAreRunDecomposition(records, When);
    OneTransactionPerRun(Runs(records, When));
    OperationsConcatenate(Runs(records, When));
  }
}
