/**
 * How the two crates' Exante pipelines relate. The core mapping validates
 * the ISIN and the UUID and drops a whole run when one row fails; the
 * importer mapping validates nothing. On rows the core accepts the two
 * mappings coincide, and on input whose every row the core accepts the two
 * pipelines return the same transactions.
 */
module Agreement {
  import opened Domain
  import opened IsinFormat
  import opened ExanteRecord
  import opened Grouping
  import CoreExante
  import ImporterExante

  /** Where the core mapping succeeds it produces exactly the importer's operation. */
  lemma MapRecordAgrees(r: Record, isUuid: string -> bool)
    requires CoreExante.MapRecord(r, isUuid).Ok?
    ensures CoreExante.MapRecord(r, isUuid).value == ImporterExante.ToOperation(r)
  {
  }

  /** A run the core maps completely maps to the importer's operations. */
  lemma MapRunAgrees(g: seq<Record>, isUuid: string -> bool)
    requires CoreExante.MapRun(g, isUuid).Some?
    ensures CoreExante.MapRun(g, isUuid).value == ImporterExante.MapAll(g)
  {
    forall i | 0 <= i < |g| ensures CoreExante.MapRun(g, isUuid).value[i] == ImporterExante.MapAll(g)[i] {
      MapRecordAgrees(g[i], isUuid);
    }
  }

  /** The rows of every run the core accepts fully. */
  ghost predicate AllRowsMap(gs: seq<seq<Record>>, isUuid: string -> bool)
  {
    forall k, j :: 0 <= k < |gs| && 0 <= j < |gs[k]| ==> CoreExante.MapRecord(gs[k][j], isUuid).Ok?
  }

  /** When every row of every run maps, the core emits what the importer builds. */
  lemma {:induction false} EmittedAgrees(gs: seq<seq<Record>>, isUuid: string -> bool)
    requires AllRowsMap(gs, isUuid)
    ensures CoreExante.Emitted(gs, isUuid) == ImporterExante.Expected(gs)
  {
    if gs != [] {
      var init, g := gs[..|gs| - 1], gs[|gs| - 1];
      assert AllRowsMap(init, isUuid) by {
        forall k, j | 0 <= k < |init| && 0 <= j < |init[k]| ensures CoreExante.MapRecord(init[k][j], isUuid).Ok? {
          assert init[k] == gs[k];
        }
      }
      EmittedAgrees(init, isUuid);
      assert forall j :: 0 <= j < |g| ==> CoreExante.MapRecord(g[j], isUuid).Ok?;
      MapRunAgrees(g, isUuid);
    }
  }

  /** Every row of every run is a row of the flattened input. */
  lemma {:induction false} RowsOfRunsAreRows<T>(gs: seq<seq<T>>, k: nat, j: nat)
    requires k < |gs| && j < |gs[k]|
    ensures gs[k][j] in Flatten(gs)
  {
    var init, g := gs[..|gs| - 1], gs[|gs| - 1];
    FlattenAppend(init, g);
    assert gs == init + [g];
    if k < |init| {
      assert gs[k] == init[k];
      RowsOfRunsAreRows(init, k, j);
    } else {
      assert Flatten(gs)[|Flatten(init)| + j] == g[j];
    }
  }

  /**
   * On an export whose every row has a valid ISIN (or none) and a valid
   * UUID, both crates' `group_records_into_transactions` produce the same
   * transactions.
   */
  lemma PipelinesAgree(records: seq<Record>, isUuid: string -> bool)
    requires forall i :: 0 <= i < |records| ==> CoreExante.MapRecord(records[i], isUuid).Ok?
    ensures CoreExante.Emitted(Runs(records, When), isUuid) == ImporterExante.Expected(Runs(records, When))
  {
    var gs := Runs(records, When);
    RunsAreRunDecomposition(records, When);
    forall k, j | 0 <= k < |gs| && 0 <= j < |gs[k]| ensures CoreExante.MapRecord(gs[k][j], isUuid).Ok? {
      RowsOfRunsAreRows(gs, k, j);
    }
    EmittedAgrees(gs, isUuid);
  }

  /** A row with a malformed ISIN: the core refuses it, the importer keeps the string as a Security. */
  lemma MalformedIsinDiverges(r: Record, isUuid: string -> bool)
    requires r.isin != NoIsin && !IsValidIsin(r.isin)
    ensures CoreExante.MapRecord(r, isUuid) == Err(CoreExante.IsinFailure(InvalidIso6166))
    ensures ImporterExante.ToOperation(r).asset.id == Security(Isin(r.isin))
  {
  }

  /** "US-0378" is such a malformed ISIN: it normalizes to six characters. */
  lemma ShortIsinDiverges(r: Record, isUuid: string -> bool)
    requires r.isin == "US-0378"
    ensures CoreExante.MapRecord(r, isUuid) == Err(CoreExante.IsinFailure(InvalidIso6166))
    ensures ImporterExante.ToOperation(r).asset.id == Security(Isin("US-0378"))
  {
    assert "US-0378" == "US" + "-" + "0378";
    StripOneHyphen("US", "0378");
    assert |StripHyphens(r.isin)| == 6;
    MalformedIsinDiverges(r, isUuid);
  }
}
