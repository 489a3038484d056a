# delfin: a Dafny model of the validated domain and the Exante import pipeline

This project models the two near-duplicate copies of delfin's domain core:
the `packages/core` crate and the `packages/importer` crate. It covers:

- the ISIN validator (`ISIN::from_str`): remove every hyphen, then check the
  ISO 6166 shape, two upper-case letters followed by ten upper-case letters
  or digits, and keep the original string;
- the two `TransactionBuilder`s. The core one updates itself in place
  (`&mut self`) and its `build` refuses an empty builder with
  "Missing operations". The importer one is consumed and returned
  (`mut self`) and its `build` checks only the dates ("Missing dates");
- the two Exante row → `Operation` mappings. The core one is fallible: it
  validates the ISIN and the UUID. The importer one is total and stores the
  strings as they are;
- the two `group_records_into_transactions` functions. Both split the rows
  into maximal adjacent runs of equal `when` (`linear_group_by`) and feed each
  run to one fresh builder. In the core crate, one row that fails to map drops
  its whole run.

Modules:

- `Domain` (domain.dfy): the shared datatypes (`Asset`, `AssetId`, `Isin`,
  `Ledger`, `OperationKind`, `Operation`, `Transaction`). It also defines the
  functions that specify a transaction: `Earliest`, `Latest`, `LedgersOf`,
  `TransactionOf` and the `Consistent` invariant. `Asset::new` and
  `Ledger::new` are the datatype constructors.
- `IsinFormat` (isin.dfy): `ParseIsin` and its properties, with every example
  from the doc comment and the unit tests.
- `Grouping` (grouping.dfy): `linear_group_by` as `Runs`. It proves that
  `Runs` is the unique decomposition into maximal uniform adjacent runs.
- `ExanteRecord` (exante_record.dfy): the broker row (`RawRecord` in core,
  `Record` in importer, which have the same fields), the sign-based kind rule
  and the magnitude.
- `CoreTransaction` (core_transaction.dfy): the core builder as a class.
- `ImporterTransaction` (importer_transaction.dfy): the importer builder as a
  value, updated through a local copy.
- `CoreExante` (core_exante.dfy) and `ImporterExante` (importer_exante.dfy):
  the two mappings and the two grouping pipelines. Each pipeline is a method
  with loops, proved against a specification function (`Emitted`,
  `Expected`).
- `Agreement` (agreement.dfy): on rows the core accepts, the two crates agree.
  A malformed ISIN separates them.

Representation choices:

- Timestamps are `int` (seconds, already parsed).
- The signed `Sum` is an `int` number of minor units. `value` is its
  magnitude, a `nat`.
- `HashSet<Ledger>` is `set<Ledger>`.
- UUID syntax is the parameter `isUuid: string -> bool`.

Both crates hard-code the sign-based kind rule and the "None" → USD asset
rule, and the source marks each with a TODO
(packages/core/src/data_sources/exante.rs:101 and :111,
packages/importer/src/data_sources/exante.rs:82 and :92). The model follows
the code.

## Model

| member | source | states |
|---|---|---|
| IsinFormat.StripHyphens | packages/core/src/asset.rs:60 | the normalized string contains no hyphen and is no longer than the input |
| IsinFormat.MatchesIso6166Pattern | packages/core/src/asset.rs:63 | the pattern `^[A-Z]{2}[\dA-Z]{10}$` as a character-class predicate; ParseIsin's contract ties acceptance to it, and NormalizedExamplesMatch and PunctuatedExampleFails evaluate it on the test inputs |
| IsinFormat.ParseIsin | packages/core/src/asset.rs:59-72 | succeeds iff the hyphen-stripped input has the ISO 6166 shape (length 12, two A–Z, then ten A–Z or 0–9); on success the stored code is the original input, hyphens included; every failure is InvalidIso6166 |
| IsinFormat.StripHyphensConcat | packages/core/src/asset.rs:60 | removing hyphens distributes over concatenation |
| IsinFormat.StripHyphensIdempotent | packages/core/src/asset.rs:60 | normalizing twice gives the same as normalizing once |
| IsinFormat.StripHyphensFree | packages/core/src/asset.rs:60 | a string without hyphens is left unchanged |
| IsinFormat.DropHyphen | packages/core/src/asset.rs:60 | a hyphen inserted anywhere disappears from the normalized string |
| IsinFormat.StripLoneHyphen | packages/core/src/asset.rs:60 | a lone hyphen normalizes to the empty string |
| IsinFormat.HyphenInsensitive | packages/core/src/asset.rs:60-69 | inserting a hyphen anywhere never changes whether the parse succeeds |
| IsinFormat.ParseIdempotent | packages/core/src/asset.rs:60-71 | re-parsing the code stored by a successful parse gives the same result |
| IsinFormat.AcceptedLength | packages/core/src/asset.rs:60-69 | an accepted input has at least 12 characters |
| IsinFormat.LowerCaseCountryRejected | packages/core/src/asset.rs:63-69 | an input that begins with a lower-case letter is rejected with InvalidIso6166 |
| IsinFormat.StripOneHyphen | packages/core/src/asset.rs:60 | one hyphen between hyphen-free pieces is removed and the pieces are joined |
| IsinFormat.StripTwoHyphens | packages/core/src/asset.rs:60 | two hyphens between hyphen-free pieces are removed and the pieces are joined |
| IsinFormat.NormalizedExamplesMatch | packages/core/src/asset.rs:63-69 | "NA000K0VF054" and "US0004026250" have the ISO 6166 shape |
| IsinFormat.PunctuatedExampleFails | packages/core/src/asset.rs:63-69 | "NA000K0VF05!4" does not have the ISO 6166 shape |
| IsinFormat.AcceptsHyphenatedNa | packages/core/src/asset.rs:36-37 | "NA-000K0VF05-4" parses and keeps its hyphens |
| IsinFormat.AcceptsPlainNa | packages/core/src/asset.rs:99-108 | "NA000K0VF054" parses |
| IsinFormat.AcceptsHyphenatedUs | packages/core/src/asset.rs:99-108 | "US-000402625-0" parses and keeps its hyphens |
| IsinFormat.AcceptsPlainUs | packages/core/src/asset.rs:99-108 | "US0004026250" parses |
| IsinFormat.RejectsShortCountryCode | packages/core/src/asset.rs:39-40 | "A-000K0VF05" fails with InvalidIso6166 |
| IsinFormat.RejectsPunctuation | packages/core/src/asset.rs:113-123 | "NA-000K0VF05!4" fails with InvalidIso6166 |
| IsinFormat.RejectsThirteenCharacters | packages/core/src/asset.rs:113-123 | "NA000K0VF0544" fails with InvalidIso6166 |
| IsinFormat.RejectsFourLetterPrefix | packages/core/src/asset.rs:113-123 | "RAEA000K0VF054" fails with InvalidIso6166 |
| IsinFormat.RejectsDigitCountryCode | packages/core/src/asset.rs:113-123 | "000402625-000" fails with InvalidIso6166 |
| IsinFormat.RejectsLongUs | packages/core/src/asset.rs:113-123 | "US00040262500" fails with InvalidIso6166 |
| Domain.EarliestIsMinimum | packages/core/src/transaction.rs:29-33 | the running start is at most every execution time and equals one of them |
| Domain.LatestIsMaximum | packages/core/src/transaction.rs:35-39 | the running finish is at least every execution time and equals one of them |
| Domain.SpanAppend | packages/core/src/transaction.rs:29-39 | adding an operation lowers the start only if its time is strictly smaller and raises the finish only if its time is strictly larger |
| Domain.LedgersOfAppend | packages/core/src/transaction.rs:27 | adding an operation adds exactly its ledger to the ledger set |
| Domain.TracksAppend | packages/core/src/transaction.rs:24-49 | one add step keeps the builder invariant: dates set iff operations were added, dates are the earliest and latest time, ledgers are the operations' ledgers |
| Domain.ConsistentIsOrdered | packages/core/src/transaction.rs:7-13 | a consistent transaction has started_at <= finished_at |
| Domain.UniformSpan | packages/core/src/data_sources/exante.rs:41-49 | when all operations share one time, the span is exactly that time |
| Domain.TransactionOfIsConsistent | packages/core/src/transaction.rs:7-13 | the transaction of a non-empty operation list keeps every transaction invariant and is ordered |
| CoreTransaction.TransactionBuilder.constructor | packages/core/src/transaction.rs:15-21 | the default builder is empty, has no dates and keeps the invariant |
| CoreTransaction.TransactionBuilder.AddOperation | packages/core/src/transaction.rs:24-49 | in place: the ledger joins the set, a set start is lowered only by a strictly earlier time, a set finish is raised only by a strictly later time, both unset dates become the time, the operation is appended; the invariant (dates set iff operations non-empty, dates are min and max, ledgers are the operations' ledgers) is preserved |
| CoreTransaction.TransactionBuilder.Build | packages/core/src/transaction.rs:51-73 | no operations gives "Missing operations"; with both dates the result is the builder's fields; a missing date gives "Missing dates"; on a valid builder it succeeds iff an operation was added, never reports "Missing dates", and returns a consistent, ordered transaction; the builder is not changed |
| CoreTransaction.BuildWithoutOperations | packages/core/src/transaction.rs:83-87 | a fresh builder fails with "Missing operations" |
| CoreTransaction.BuildFrom | packages/core/src/transaction.rs:90-114 | adding any non-empty list of operations and building gives their transaction; an empty list gives "Missing operations" |
| ImporterTransaction.EmptyIsValid | packages/importer/src/transaction.rs:16-22 | the default builder keeps the builder invariant |
| ImporterTransaction.Empty | packages/importer/src/transaction.rs:16-22 | `TransactionBuilder::default()`; EmptyIsValid shows it keeps the builder invariant and BuildEmpty that building it fails with "Missing dates" |
| ImporterTransaction.AddOperation | packages/importer/src/transaction.rs:25-50 | the returned builder has the ledger added, the dates initialized or widened as in the core builder, and the operation appended; it keeps the invariant |
| ImporterTransaction.Build | packages/importer/src/transaction.rs:52-70 | succeeds iff both dates are set, moving operations, ledgers and dates unchanged; otherwise fails with "Missing dates" |
| ImporterTransaction.BuildValid | packages/importer/src/transaction.rs:52-70 | on a builder that kept its invariant, build succeeds iff an operation was added, and the result is the consistent, ordered transaction of the operations |
| ImporterTransaction.BuildEmpty | packages/importer/src/transaction.rs:60-69 | a fresh builder fails with "Missing dates", not "Missing operations" |
| ImporterTransaction.BuildPair | packages/importer/src/transaction.rs:79-86 | two adds and a build always succeed, with both ledgers and the min and max of the two times |
| ImporterTransaction.BuildFrom | packages/importer/src/transaction.rs:25-70 | folding add over a non-empty list and building gives its transaction; an empty list gives "Missing dates" |
| ExanteRecord.KindOf | packages/core/src/data_sources/exante.rs:102-106 | a strictly positive sum is Inflow(Deposit); zero and negative sums are Outflow(Withdrawal) |
| ExanteRecord.Magnitude | packages/core/src/data_sources/exante.rs:120 | the value is the sum or its negation, never negative |
| ExanteRecord.SignRecovered | packages/core/src/data_sources/exante.rs:102-120 | kind and magnitude together determine the signed sum |
| ExanteRecord.KindExamples | packages/importer/src/data_sources/exante.rs:83-87 | 10000.00 is a deposit of 10000.00, -49.99 a withdrawal of 49.99, zero a withdrawal |
| Grouping.FlattenAppend | packages/core/src/data_sources/exante.rs:41 | concatenating runs distributes over appending a run |
| Grouping.Runs | packages/importer/src/data_sources/exante.rs:36 | `linear_group_by` on `when`; specified by RunsAreRunDecomposition (the runs concatenate to the input, are uniform and maximal) and RunDecompositionUnique (no other such split exists) |
| Grouping.PushFlatten | packages/core/src/data_sources/exante.rs:41 | adding an element to the runs adds it at the end of their concatenation |
| Grouping.PushUniformMaximal | packages/core/src/data_sources/exante.rs:41 | adding an element keeps every run uniform and neighbouring runs distinct |
| Grouping.PushDecomposes | packages/core/src/data_sources/exante.rs:41 | adding an element to a run decomposition of xs gives a run decomposition of xs with that element appended |
| Grouping.RunsAreRunDecomposition | packages/core/src/data_sources/exante.rs:41 | the runs concatenate to the input, are non-empty, share one key each, and neighbouring runs have different keys |
| Grouping.PrefixUniformMaximal | packages/core/src/data_sources/exante.rs:41 | a prefix of uniform maximal runs is uniform and maximal |
| Grouping.DropSingletonRun | packages/core/src/data_sources/exante.rs:41 | dropping a last run of one element leaves a decomposition of the shorter input, which that element extends with a new run |
| Grouping.ShrinkUniformMaximal | packages/core/src/data_sources/exante.rs:41 | shortening a last run of two or more elements keeps the runs uniform and maximal, and the removed element shares the key of the one before it |
| Grouping.ShrinkLastRun | packages/core/src/data_sources/exante.rs:41 | shortening the last run leaves a decomposition of the shorter input, which the removed element extends back |
| Grouping.DropLastDecomposes | packages/core/src/data_sources/exante.rs:41 | removing the last element of a run decomposition gives a decomposition of the shorter input, and adding it back restores the original |
| Grouping.RunDecompositionUnique | packages/core/src/data_sources/exante.rs:41 | any decomposition into maximal uniform adjacent runs is the grouping's result |
| Grouping.RunsCount | packages/core/src/data_sources/exante.rs:41 | there are no more runs than elements, and at least one run for a non-empty input |
| Grouping.RunsSnoc | packages/core/src/data_sources/exante.rs:41 | the grouping is built by adding elements one at a time, left to right |
| Grouping.PushExtends | packages/core/src/data_sources/exante.rs:41 | an element whose key equals the previous element's extends the last run |
| Grouping.PushOpens | packages/core/src/data_sources/exante.rs:41 | an element whose key differs from the previous element's opens a new run |
| Grouping.RunsOfOne | packages/core/src/data_sources/exante.rs:41 | a single time t1 is one run |
| Grouping.RunsOfTwo | packages/core/src/data_sources/exante.rs:41 | times [t1, t1] are one run |
| Grouping.RunsOfThree | packages/core/src/data_sources/exante.rs:41 | times [t1, t1, t2] with t1 ≠ t2 are two runs |
| Grouping.AdjacentNotPartition | packages/core/src/data_sources/exante.rs:41 | for any times t1 ≠ t2, [t1, t1, t2, t1] gives three groups [[t1, t1], [t2], [t1]], not a partition by key |
| CoreExante.ParseOperationId | packages/core/src/data_sources/exante.rs:116 | succeeds iff the string is a UUID, keeping the string; otherwise InvalidFormat |
| CoreExante.AssetIdOf | packages/core/src/data_sources/exante.rs:108-113 | "None" is Currency(USD); any other field succeeds iff it is a valid ISIN and is then Security of it; failure is InvalidIso6166 |
| CoreExante.MapRecord | packages/core/src/data_sources/exante.rs:97-123 | succeeds iff the ISIN field is "None" or valid and the UUID is valid; the ISIN is checked first; on success the id, kind, ledger, asset, value and time come from the row |
| CoreExante.MappedSignRecovered | packages/core/src/data_sources/exante.rs:102-120 | a mapped operation's kind and value give back the row's signed sum |
| CoreExante.MappedIsinIsValid | packages/core/src/data_sources/exante.rs:108-109 | every Security produced by the core mapping carries a valid ISIN |
| CoreExante.MapRun | packages/core/src/data_sources/exante.rs:45-47 | a run maps iff every one of its rows maps, and then gives the rows' operations in order |
| CoreExante.MapRunPrefix | packages/core/src/data_sources/exante.rs:45-47 | mapping one more row extends the mapped prefix if that row maps, and fails otherwise |
| CoreExante.BuildRun | packages/core/src/data_sources/exante.rs:42-50 | the closure yields a transaction iff the run is non-empty and every row maps, and it is the transaction of the mapped rows; the first failing row stops the loop |
| CoreExante.GroupRecordsIntoTransactions | packages/core/src/data_sources/exante.rs:37-52 | always Ok; the result is the transactions of the runs that survive, in run order, at most one per run, each consistent and starting when it finishes |
| CoreExante.EmittedConcat | packages/core/src/data_sources/exante.rs:42-51 | the output for concatenated runs is the concatenation of the outputs: each run is handled on its own |
| CoreExante.RunSurvives | packages/core/src/data_sources/exante.rs:42-49 | a run yields at most one transaction; it yields one iff it is non-empty and every row maps, and that transaction holds the mapped rows in order |
| CoreExante.FailingRowDropsRun | packages/core/src/data_sources/exante.rs:46 | one row that fails to map removes its whole run and leaves the other runs' transactions as they were |
| CoreExante.EmittedAtMostOnePerRun | packages/core/src/data_sources/exante.rs:42-51 | there are no more transactions than runs |
| CoreExante.RunTransactionSpan | packages/core/src/data_sources/exante.rs:43-49 | the transaction of a run sharing time w is consistent and spans exactly w |
| CoreExante.EmittedUniform | packages/core/src/data_sources/exante.rs:41-51 | on runs of equal times, every transaction is consistent and starts when it finishes |
| ImporterExante.ToOperation | packages/importer/src/data_sources/exante.rs:80-108 | total: the id is the UUID string as given, the kind is Inflow iff the sum is positive, the signed sum is kept, "None" is Currency(USD) and any other field is Security of the string as given, and the ledger, name and time come from the row |
| ImporterExante.MapAll | packages/importer/src/data_sources/exante.rs:39-41 | one operation per row, in order |
| ImporterExante.MapAllPrefix | packages/importer/src/data_sources/exante.rs:39-41 | mapping one more row appends its operation |
| ImporterExante.BuildRun | packages/importer/src/data_sources/exante.rs:36-43 | a non-empty run gives the transaction of its mapped rows |
| ImporterExante.GroupRecordsIntoTransactions | packages/importer/src/data_sources/exante.rs:34-47 | exactly one transaction per run, in run order, each consistent and starting when it finishes |
| ImporterExante.OneTransactionPerRun | packages/importer/src/data_sources/exante.rs:36-44 | for non-empty runs, the k-th transaction is the transaction of the k-th run |
| ImporterExante.RunSpans | packages/importer/src/data_sources/exante.rs:36-44 | each transaction is consistent and starts and finishes at its run's time |
| ImporterExante.MapAllAppend | packages/importer/src/data_sources/exante.rs:39-41 | mapping distributes over concatenation |
| ImporterExante.OperationsConcatenate | packages/importer/src/data_sources/exante.rs:35-46 | the transactions' operations, concatenated, are the mapped rows of the runs |
| ImporterExante.PipelinePreservesOperations | packages/importer/src/data_sources/exante.rs:34-47 | as many transactions as runs, and their operations concatenated in order are the mapped input |
| Agreement.MapRecordAgrees | packages/core/src/data_sources/exante.rs:97-123 | where the core mapping succeeds, it gives the importer's operation |
| Agreement.MapRunAgrees | packages/core/src/data_sources/exante.rs:45-47 | a run the core maps completely gives the importer's operations |
| Agreement.EmittedAgrees | packages/core/src/data_sources/exante.rs:37-52 | when every row of every run maps, the core pipeline gives what the importer gives |
| Agreement.RowsOfRunsAreRows | packages/core/src/data_sources/exante.rs:41 | every row of every run is a row of the concatenated runs |
| Agreement.PipelinesAgree | packages/importer/src/data_sources/exante.rs:34-47 | on an export whose every row the core accepts, both pipelines give the same transactions |
| Agreement.MalformedIsinDiverges | packages/importer/src/data_sources/exante.rs:89-94 | for every ISIN field other than "None" that is not a valid ISIN, the core mapping fails with InvalidIso6166 while the importer stores the field as given as a Security |
| Agreement.ShortIsinDiverges | packages/core/src/data_sources/exante.rs:108-109 | the field "US-0378" is one such case: rejected by the core, kept as a Security by the importer |

## Left out

- `read_csv_file` in both crates: file I/O and csv/serde deserialization. Rows that fail to deserialize are dropped before the model sees them.
- `deserialize_exante_date`: chrono parsing of "%Y-%m-%d %H:%M:%S". `when` is an already-parsed integer.
- The `f32` `Sum` and its conversions to `rust_decimal`: the model uses exact integer minor units. So neither float rounding, nor the `RawRecordError::Value` path (`try_into()?` on the magnitude), nor the importer's `unwrap_or_default()` fallback to zero is modelled.
- ExanteRecord.Magnitude: exact, with no float-to-decimal rounding and no conversion failure.
- `OperationId::from_str`: packages/core/src/operation.rs is not part of this model. UUID syntax is the parameter `isUuid`. The parsed OperationId is assumed to keep the UUID string as given, like the importer's `OperationId(self.uuid.to_owned())`; the Agreement lemmas MapRecordAgrees, MapRunAgrees, EmittedAgrees and PipelinesAgree rely on this.
- IsinFormat.ParseIsin: the `regex` crate's `\d` also matches non-ASCII decimal digits; the model accepts only ASCII 0–9.
- IsinFormat.ParseIsin: never returns `ISINError::Regex`. The pattern is a fixed valid constant, so that error cannot happen.
- `packages/importer/src/assets_trading.rs`: it holds traits only, with no behaviour.
- The quickcheck/fake `Arbitrary` instances, the `println!` tests in `lib.rs`, and `Display for FiatCurrency`: test generators and formatting. BuildPair models what the `Arbitrary for Transaction` generator relies on.
- Ownership, cloning and `HashSet` hashing: ledgers are a mathematical set, and equality is by name.
