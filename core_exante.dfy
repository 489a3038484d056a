/**
 * The core crate's Exante pipeline: the fallible mapping of one row to an
 * Operation (`TryInto<Operation> for &RawRecord`) and
 * `group_records_into_transactions`, which feeds every maximal run of rows
 * with the same `when` to one fresh builder and keeps the transactions that
 * build. A row that fails to map makes the `?` inside the `filter_map`
 * closure return None, so its WHOLE run is dropped.
 *
 * UUID parsing belongs to packages/core/src/operation.rs, which is not part
 * of this model: whether a string is a UUID is the parameter `isUuid`.
 */
module CoreExante {
  import opened Domain
  import opened IsinFormat
  import opened ExanteRecord
  import opened Grouping
  import CoreTransaction

  datatype OperationIdError = InvalidFormat

  /** The failures a row can map to; the first one met is reported. */
  datatype RawRecordError =
    | OperationIdFailure(operationIdError: OperationIdError)
    | IsinFailure(isinError: IsinError)

  /** `OperationId::from_str`, with UUID syntax supplied by `isUuid`; the string is kept as given. */
  function ParseOperationId(s: string, isUuid: string -> bool): (r: Result<OperationId, OperationIdError>)
    ensures r.Ok? <==> isUuid(s)
    ensures r.Ok? ==> r.value.uuid == s
    ensures r.Err? ==> r.error == InvalidFormat
  {
    if isUuid(s) then Ok(OperationId(s)) else Err(InvalidFormat)
  }

  /** The asset of a row: a parsed Security unless the field is the "None" sentinel, which means USD. */
  function AssetIdOf(isin: string): (r: Result<AssetId, IsinError>)
    ensures r.Ok? <==> isin == NoIsin || IsValidIsin(isin)
    ensures isin == NoIsin ==> r == Ok(Currency(USD))
    ensures isin != NoIsin && r.Ok? ==> r.value == Security(Isin(isin))
    ensures r.Err? ==> r.error == InvalidIso6166
  {
    if isin != NoIsin then
      match ParseIsin(isin)
      case Ok(parsed) => Ok(Security(parsed))
      case Err(e) => Err(e)
    else
      Ok(Currency(USD))
  }

  /**
   * `(&record).try_into()`: the ISIN is checked before the UUID, and either
   * failure fails the whole row.
   */
  function MapRecord(r: Record, isUuid: string -> bool): (res: Result<Operation, RawRecordError>)
    ensures res.Ok? <==> (r.isin == NoIsin || IsValidIsin(r.isin)) && isUuid(r.uuid)
    ensures r.isin != NoIsin && !IsValidIsin(r.isin) ==> res == Err(IsinFailure(InvalidIso6166))
    ensures (r.isin == NoIsin || IsValidIsin(r.isin)) && !isUuid(r.uuid) ==> res == Err(OperationIdFailure(InvalidFormat))
    ensures res.Ok? ==> res.value.id == OperationId(r.uuid) && res.value.ledger == Ledger(r.accountId)
    ensures res.Ok? ==> res.value.kind == KindOf(r.sum) && res.value.value == Magnitude(r.sum)
    ensures res.Ok? ==> res.value.asset.name == r.asset && res.value.executedAt == r.when
    ensures res.Ok? ==> res.value.asset.id == (if r.isin == NoIsin then Currency(USD) else Security(Isin(r.isin)))
  {
    match AssetIdOf(r.isin)
    case Err(e) => Err(IsinFailure(e))
    case Ok(assetId) =>
      match ParseOperationId(r.uuid, isUuid)
      case Err(e) => Err(OperationIdFailure(e))
      case Ok(id) =>
        Ok(Operation(id, KindOf(r.sum), Ledger(r.accountId), Asset(assetId, r.asset), Magnitude(r.sum), r.when))
  }

  /** A mapped row records which way the money moved: its signed sum comes back from kind and value. */
  lemma MappedSignRecovered(r: Record, isUuid: string -> bool)
    requires MapRecord(r, isUuid).Ok?
    ensures SignedValue(MapRecord(r, isUuid).value.kind, MapRecord(r, isUuid).value.value) == r.sum
  {
    SignRecovered(r.sum);
  }

  /** Every Security the core mapping produces carries a well-formed ISIN. */
  lemma MappedIsinIsValid(r: Record, isUuid: string -> bool)
    requires MapRecord(r, isUuid).Ok? && MapRecord(r, isUuid).value.asset.id.Security?
    ensures IsValidIsin(MapRecord(r, isUuid).value.asset.id.isin.code)
  {
  }

  /**
   * Maps the rows of one run in order, stopping at the first failure: None
   * when some row fails, else the mapped operations.
   */
  function MapRun(g: seq<Record>, isUuid: string -> bool): (r: Option<seq<Operation>>)
    ensures r.Some? <==> forall i :: 0 <= i < |g| ==> MapRecord(g[i], isUuid).Ok?
    ensures r.Some? ==> |r.value| == |g| && forall i :: 0 <= i < |g| ==> r.value[i] == MapRecord(g[i], isUuid).value
  {
    if g == [] then Some([])
    else
      match MapRun(g[..|g| - 1], isUuid)
      case None => None
      case Some(ops) =>
        match MapRecord(g[|g| - 1], isUuid)
        case Err(_) => None
        case Ok(op) => Some(ops + [op])
  }

  /** What one run contributes: its transaction when every row maps and the builder accepts it, else nothing. */
  function EmitRun(g: seq<Record>, isUuid: string -> bool): seq<Transaction>
  {
    match MapRun(g, isUuid)
    case None => []
    case Some(ops) => if ops == [] then [] else [TransactionOf(ops)]
  }

  /** The transactions produced for the runs `gs`, in run order. */
  function Emitted(gs: seq<seq<Record>>, isUuid: string -> bool): seq<Transaction>
  {
    if gs == [] then [] else Emitted(gs[..|gs| - 1], isUuid) + EmitRun(gs[|gs| - 1], isUuid)
  }

  /** Mapping one more row of a run extends the mapped prefix, or fails when that row fails. */
  lemma MapRunPrefix(g: seq<Record>, j: nat, isUuid: string -> bool)
    requires j < |g|
    ensures MapRun(g[..j + 1], isUuid) ==
              if MapRun(g[..j], isUuid).Some? && MapRecord(g[j], isUuid).Ok?
              then Some(MapRun(g[..j], isUuid).value + [MapRecord(g[j], isUuid).value])
              else None
  {
    assert g[..j + 1][..j] == g[..j];
  }

  /**
   * The `filter_map` closure: a fresh builder gets the run's rows in order;
   * the first row that fails to map returns None at once, and otherwise the
   * result of build, with its error discarded.
   */
  method BuildRun(group: seq<Record>, isUuid: string -> bool) returns (r: Option<Transaction>)
    ensures r.Some? <==> group != [] && forall i :: 0 <= i < |group| ==> MapRecord(group[i], isUuid).Ok?
    ensures r.Some? ==> r.value == TransactionOf(MapRun(group, isUuid).value)
  {
    var builder := new CoreTransaction.TransactionBuilder();
    for j := 0 to |group|
      invariant builder.Valid()
      invariant MapRun(group[..j], isUuid) == Some(builder.operations)
    {
      var mapped := MapRecord(group[j], isUuid);
      if mapped.Err? {
        return None;
      }
      MapRunPrefix(group, j, isUuid);
      builder.AddOperation(mapped.value);
    }
    assert group[..|group|] == group;
    var built := builder.Build();
    r := if built.Ok? then Some(built.value) else None;
  }

  /** `group_records_into_transactions`: always Ok, holding the transactions of the runs that survive. */
  method GroupRecordsIntoTransactions(records: seq<Record>, isUuid: string -> bool)
    returns (r: Result<seq<Transaction>, RawRecordError>)
    ensures r == Ok(Emitted(Runs(records, When), isUuid))
    ensures |r.value| <= |Runs(records, When)|
    ensures forall k :: 0 <= k < |r.value| ==> Consistent(r.value[k]) && r.value[k].startedAt == r.value[k].finishedAt
  {
    var groups := Runs(records, When);
    var out: seq<Transaction> := [];
    for i := 0 to |groups|
      invariant out == Emitted(groups[..i], isUuid)
    {
      var built := BuildRun(groups[i], isUuid);
      RunSurvives(groups[i], isUuid);
      if built.Some? {
        out := out + [built.value];
      }
      assert groups[..i + 1][..i] == groups[..i];
    }
    assert groups[..|groups|] == groups;
    r := Ok(out);
    RunsAreRunDecomposition(records, When);
    EmittedAtMostOnePerRun(groups, isUuid);
    EmittedUniform(groups, isUuid);
  }

  /** Emitted distributes over concatenation of run sequences: each run is handled on its own. */
  lemma {:induction false} EmittedConcat(a: seq<seq<Record>>, b: seq<seq<Record>>, isUuid: string -> bool)
    ensures Emitted(a + b, isUuid) == Emitted(a, isUuid) + Emitted(b, isUuid)
    decreases |b|
  {
    if b == [] {
      assert a + b == a;
    } else {
      var b' := b[..|b| - 1];
      assert (a + b)[..|a + b| - 1] == a + b';
      assert (a + b)[|a + b| - 1] == b[|b| - 1];
      EmittedConcat(a, b', isUuid);
    }
  }

  /** A run yields a transaction exactly when it is non-empty and every one of its rows maps. */
  lemma RunSurvives(g: seq<Record>, isUuid: string -> bool)
    ensures |EmitRun(g, isUuid)| <= 1
    ensures |EmitRun(g, isUuid)| == 1 <==> g != [] && forall i :: 0 <= i < |g| ==> MapRecord(g[i], isUuid).Ok?
    ensures |EmitRun(g, isUuid)| == 1 ==> EmitRun(g, isUuid)[0] == TransactionOf(MapRun(g, isUuid).value)
  {
  }

  /** One row that fails to map removes its whole run from the output and nothing else. */
  lemma FailingRowDropsRun(before: seq<seq<Record>>, g: seq<Record>, after: seq<seq<Record>>, i: nat, isUuid: string -> bool)
    requires i < |g| && MapRecord(g[i], isUuid).Err?
    ensures Emitted(before + [g] + after, isUuid) == Emitted(before, isUuid) + Emitted(after, isUuid)
  {
    assert MapRun(g, isUuid).None?;
    assert [g][..0] == [];
    assert Emitted([g], isUuid) == [];
    EmittedConcat(before + [g], after, isUuid);
    EmittedConcat(before, [g], isUuid);
  }

  /** There is at most one transaction per run. */
  lemma {:induction false} EmittedAtMostOnePerRun(gs: seq<seq<Record>>, isUuid: string -> bool)
    ensures |Emitted(gs, isUuid)| <= |gs|
  {
    if gs != [] {
      EmittedAtMostOnePerRun(gs[..|gs| - 1], isUuid);
      RunSurvives(gs[|gs| - 1], isUuid);
    }
  }

  /** A run whose rows share one time `w` yields a consistent transaction spanning exactly `w`. */
  lemma RunTransactionSpan(g: seq<Record>, isUuid: string -> bool, w: int)
    requires forall j :: 0 <= j < |g| ==> g[j].when == w
    requires |EmitRun(g, isUuid)| == 1
    ensures Consistent(EmitRun(g, isUuid)[0])
    ensures EmitRun(g, isUuid)[0].startedAt == w && EmitRun(g, isUuid)[0].finishedAt == w
  {
    var ops := MapRun(g, isUuid).value;
    UniformSpan(ops, w);
    TransactionOfIsConsistent(ops);
  }

  /** On runs of equal times, every emitted transaction is consistent and starts when it finishes. */
  lemma {:induction false} EmittedUniform(gs: seq<seq<Record>>, isUuid: string -> bool)
    requires UniformRuns(gs, When)
    ensures forall k :: 0 <= k < |Emitted(gs, isUuid)| ==>
              Consistent(Emitted(gs, isUuid)[k]) && Emitted(gs, isUuid)[k].startedAt == Emitted(gs, isUuid)[k].finishedAt
  {
    if gs != [] {
      var init, g := gs[..|gs| - 1], gs[|gs| - 1];
      assert UniformRuns(init, When) by {
        forall i | 0 <= i < |init|
          ensures init[i] != [] && forall j :: 0 <= j < |init[i]| ==> When(init[i][j]) == When(init[i][0])
        {
          assert init[i] == gs[i];
        }
      }
      EmittedUniform(init, isUuid);
      RunSurvives(g, isUuid);
      if |EmitRun(g, isUuid)| == 1 {
        assert forall j :: 0 <= j < |g| ==> When(g[j]) == When(g[0]);
        RunTransactionSpan(g, isUuid, g[0].when);
      }
    }
  }
}
