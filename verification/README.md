# Verification of the LEO collection station

This project models the parts of the station whose correctness depends on many steps, many clients or
exact integer arithmetic, and proves what they promise. `dafny verify dfyconfig.toml` checks all of it.

| file | what it models |
|---|---|
| `Common.dfy` | optional values and results, JSON documents, the order on text, joining and splitting, filtering and sorting |
| `Cursor.dfy` | URL-safe base64 with stripped padding (section 5 of RFC 4648) and the opaque page cursor |
| `Projections.dfy`, `Pagination.dfy` | append-only projection tables, the listing statements, one page read, and whole traversals interleaved with appends |
| `CampaignCodec.dfy`, `CampaignJournal.dfy` | the canonical campaign state payload and the compare-and-swap journal that stores it |
| `CaptureBatch.dfy`, `BatchStore.dfy` | the two-radio batch snapshot, its in-memory and durable stores, and the coordinator's retry loop |
| `Locks.dfy`, `Deadlocks.dfy` | the advisory lock protocol of concurrent projection writers, and exactly when it can deadlock |
| `Facts.dfy`, `ProjectionWriters.dfy`, `ProjectionRuns.dfy`, `ProjectionColumns.dfy` | the projection transactions, what every serial run of them keeps, and what each writes, names and refuses |
| `Statements.dfy`, `ConcurrentWriters.dfy` | the statements a transaction runs, and every interleaving of locks, statements, sequence draws and commits |
| `AnchoredReads.dfy` | recording and feature listings read beside those interleaved transactions |
| `BatchPublication.dfy` | the routine that publishes versions of a capture batch, and what every run of it keeps |
| `Observation.dfy` | the interval sweep and the duty-cycle and evidence aggregate |
| `Doppler.dfy` | track decimation, the series, point and control budgets, and the summary quantiles |
| `HttpServer.dfy` | the bounded threaded HTTP server as a step system and as an object |
| `SyntheticIq.dfy`, `SnrRatio.dfy` | the integer-exact IQ generator, its CI16 bytes and the declared signal-to-noise ratio |
| `ScanFixture.dfy` | paired CI16 interleaving and signal injection over a recorded background |
| `Calibration.dfy` | threshold fitting on per-recording maxima |
| `OutputSize.dfy` | a report that states its own encoded size |

Objects whose methods update fields are classes; each method is proved equal to a transition function
(`Apply`, `After`, `Run`), and the results over whole runs are lemmas about that function. Loops are
methods with invariants. Pure code is functions. What an operation answers is stated a second time on the stored
columns and raw inputs, apart from the functions that compute it: these lemmas end in `ByColumns`, `ByFields`,
`ByCause` or `ByComponents`, or say what is counted.

## Assumptions and parameters

- JSON text is a pair of functions with `loads(dumps(j)) == j` (`Documents.Faithful`). SHA-256 digests are
  opaque strings; building a campaign unit and the nested snapshot and receipt codecs are parameters
  (`CampaignCodec.Env`, `BatchStore.Env`) that read back what they write.
- Text is ordered by code point.
- The shared sequence is its `last_value` and whether it was ever drawn from: one never drawn from shows 1 and
  gives 1 to the first insert. In `Projections.dfy` appends come one after another and values may be skipped;
  rows that commit out of order are the subject of `Pagination.LateCommitIsHarmlessIffSuperseded` and
  `AnchoredReads.dfy`.
- A statement sees what is committed when it runs, under PostgreSQL's default READ COMMITTED isolation; an
  insert draws its sequence value when it runs and is visible to others from the commit on; advisory
  transaction locks are held to the end. In `ConcurrentWriters.dfy` these are separate steps of any number of
  transactions, in any order, and the serial results of `ProjectionRuns.dfy` carry over by
  `ConcurrentWriters.EveryInterleavingIsSerial`. Each fact and each identity is read by a step of its own, which
  allows more interleavings than the batched statements of the program.
- Distinct lock keys hash to distinct locks where a lemma says `Injective`.
- A validated feature or activity command names each logical identifier once and carries identities of its
  own kind. A batch row comes from the publication routine, which stores the earlier of two requested starts.
- A query interval is nonempty (`src/leo_flow/contracts/dashboard.py:26-28`); a fixture has two receivers and
  ordered limits inside sixteen bits (`benchmark/validate.py:728-757`, `benchmark/starlink_scan_fixture.py:182-185`).
- Scores, tracks, ratios and quantiles are real numbers; where the program rounds in binary floating point,
  the exact value stands in. `nextafter` is a function that returns a greater value or nothing.

## What the code does not promise

Nine statements one might expect are false of the code as it stands. Each is shown by
a concrete input or an exact condition, and most by both.

- A row whose transaction drew its sequence before an anchor was read and commits afterwards changes some
  anchored listing of its kind, unless a newer version of the same entity was already visible
  (`Pagination.LateCommitIsHarmlessIffSuperseded`, `Pagination.LateFirstVersionIsMissed`). That way out is not
  open to a row that is really late: the lock of an entity is held to the commit, so its versions commit in the
  order of their sequences. For recordings this is proved of every interleaving
  (`ConcurrentWriters.LaterVersionsAreNewer`); the publication of batches takes its lock in the same way
  (`migrations/0021_dashboard_capture_batch_projection.sql:315-316`) and is not part of that step system. An
  anchor read while no open transaction holds a drawn value is safe, and so is a whole traversal from it
  (`AnchoredReads.QuietAnchorsHold`, `AnchoredReads.QuietTraversalIsSnapshot`).
- Later appends leave the listings at an anchor alone if and only if the sequence had been drawn from when the
  anchor was read; batches anchor at their rows instead and are always safe
  (`Pagination.AnchorHoldsIffSettled`). Before the first projection the anchor reads 1, and the first recording
  then shows up under it (`Pagination.FirstRecordingSlipsIn`).
- A cursor is bound to the fingerprint of its query, and two different feature queries can share one: the
  recording of the one runs on, over a colon, into the selector of the other. All other queries of a kind
  have fingerprints of their own (`Pagination.FingerprintsTellApart`, `Pagination.FeatureCursorsCanCross`).
- The campaign compare-and-swap does not look at the records it stores, so a stored row passes the reader's
  integrity check if and only if its records belong to the definition
  (`CampaignJournal.WrittenRowReadsBackIffRecordsBelong`, `CampaignJournal.ForeignRecordIsStoredAndRefused`).
- Replaying a recording command is not always idle: it writes nothing if and only if its values are still
  the latest ones, and otherwise appends them again (`ProjectionRuns.RecordingReplayIsIdleIffCurrent`,
  `ProjectionRuns.RecordingReplayCanWrite`).
- The batch store's `create` takes any valid snapshot, so in every run a batch's chain of revisions starts with
  the snapshot of the call that created it, and at 0 if and only if that call carried no outcome
  (`BatchStore.ChainStartsWhereCreated`, `BatchStore.ChainCanStartAtOne`). `register` carries none, and where
  every creation is a registration all chains start at 0 (`BatchStore.RegisteredChainsStartAtZero`).
- The analysis state of a published attempt can go back, from running to queued for instance, as long as its
  result is not readable; once it is, nothing about it changes (`BatchPublication.AnalysisCanMoveIffUnsettled`,
  `BatchPublication.RunningCanGoBackToQueued`).
- Projection writers whose lock keys collide under the hash can deadlock. They can exactly when some of their
  plans, each stopped part way, hold disjoint locks and each want one that another holds
  (`Deadlocks.CanDeadlockIffPlansCanBeStuck`, `Deadlocks.CollisionsCanDeadlock`); for given requests it is
  enough to try their finitely many positions (`Deadlocks.RequestsCanDeadlockIff`). With distinct numbers for
  distinct keys there are no such plans (`Deadlocks.DistinctNumbersNeverStick`). Publishing a recording's detail
  takes one lock more, after the sorted pass
  (`migrations/0026_dashboard_recording_detail_waterfall_projection.sql:207-209`); progress survives because
  that key comes after every other one of every writer.
- A report can have two sizes that describe it correctly: if and only if the text around the number takes
  10^k - 1 - k bytes for some k >= 1, and then they are 10^k - 1 and 10^k (`OutputSize.TwoSizesIff`,
  `OutputSize.TheTwoSizes`, `OutputSize.SelfDescriptionIsNotUnique`). The loop stores the smaller.

## Model

| member | source | states |
|---|---|---|
| `Base64Url.DecodeInvertsEncode` | src/leo_flow/adapters/dashboard_postgres.py:883-936 | decoding URL-safe base64 gives back every byte string that was encoded |
| `Base64Url.PaddingIsRecoverable` | src/leo_flow/adapters/dashboard_postgres.py:883-936 | padding stripped from a cursor is restored exactly from the length of what is left |
| `Base64Url.StrippedTextReadsBack` | src/leo_flow/adapters/dashboard_postgres.py:883-936 | bytes survive encoding, stripping, re-padding and decoding |
| `Base64Url.DigitsAreTheAlphabet` | src/leo_flow/adapters/dashboard_postgres.py:883-936 | digits are those of the URL-safe alphabet in its order; the decoder also takes the two signs of the other alphabet for their URL-safe ones |
| `Base64Url.DecodesIffWellSpelt` | src/leo_flow/adapters/dashboard_postgres.py:903-913 | a text decodes if and only if it is whole groups of four digits, with two padding signs at the end at most |
| `Base64Url.GroupsSpellTheirBytes` | src/leo_flow/adapters/dashboard_postgres.py:883-896 | every three bytes and the four digits at their place spell one number, in base 256 and in base 64 |
| `Base64Url.WholeGroupsEncodeApart` | src/leo_flow/adapters/dashboard_postgres.py:883-896 | behind whole groups of three bytes encoding starts afresh |
| `Base64Url.ShortGroupsAreFilled` | src/leo_flow/adapters/dashboard_postgres.py:883-896 | one or two bytes at the end are spelt with zeros behind them and one sign for each byte that is missing |
| `Cursor.IssuedCursorsAreBound` | src/leo_flow/adapters/dashboard_postgres.py:883-936 | an issued cursor is accepted if and only if kind, query fingerprint and key shape are its own, and then yields the same anchor and key |
| `Cursor.AcceptedByFields` | src/leo_flow/adapters/dashboard_postgres.py:903-933 | any document, issued or made up, is accepted if and only if it has just the five fields, the version, this kind and query, an integer anchor and a key of the right shape; what it yields is what the fields say |
| `Text.LessIsLexicographic` | src/leo_flow/adapters/dashboard_projection_postgres.py:469-473 | one text sorts before another if and only if it is a proper prefix or smaller at the first difference |
| `Projections.AppendExtends` | src/leo_flow/adapters/dashboard_projection_postgres_sql.py:70-94 | an append of a row or an activity keeps every row and adds one with the next value of the sequence, above all the others |
| `Projections.PublishedRowsStayPublished` | migrations/0021_dashboard_capture_batch_projection.sql:391-400 | in tables filled by the publication routine every stored start is the earlier of the two requested ones |
| `Projections.SnapshotIsExact` | src/leo_flow/adapters/dashboard_batch_postgres_sql.py:19-40 | a listing holds exactly the latest-as-of-anchor rows that match, each entity once, strictly in listing order |
| `Projections.SnapshotByColumns` | src/leo_flow/adapters/dashboard_postgres_sql.py:8-43 | on the columns: times run from the latest start down, equal starts from the greatest identifier down, features up their identifiers; listed is, of each entity, the version with the largest sequence at or below the anchor, if its start, radio and method are asked for |
| `Projections.KindsByColumns` | src/leo_flow/adapters/dashboard_postgres_sql.py:8-31 | a recording shows exactly the kinds of the activities whose newest version at the anchor is its own |
| `Projections.SnapshotMembers` | src/leo_flow/adapters/dashboard_postgres_sql.py:8-43 | membership in a listing, for any table |
| `Pagination.LaterRowsAreInvisible` | src/leo_flow/adapters/dashboard_batch_postgres_sql.py:19-40 | rows gained above the anchor change nothing the anchored statement can see |
| `Pagination.AnchoredListingsStay` | src/leo_flow/adapters/dashboard_postgres_sql.py:8-43 | nor, for recordings, the activity kinds it returns with each row |
| `Pagination.KeysetCutsSnapshot` | src/leo_flow/adapters/dashboard_batch_postgres_sql.py:19-40 | the keyset condition selects exactly the rest of the listing behind the named row |
| `Pagination.FingerprintsTellApart` | src/leo_flow/adapters/dashboard_postgres.py:878-880 | two queries of one kind share a fingerprint if and only if they are the same, or are feature queries of which one's recording runs on into the other's selector |
| `Pagination.FeatureCursorsCanCross` | src/leo_flow/adapters/dashboard_postgres.py:711-712 | a cursor for recording `rec_a` and selector `b:c` is accepted for recording `rec_a:b` and selector `c` |
| `Pagination.PageIsSlice` | src/leo_flow/adapters/dashboard_batch_postgres.py:163-193 | one page read, with a real cursor, whatever was appended above the anchor between its statements and since the first anchor, is the next slice of the original listing and names the next position exactly when rows remain |
| `Pagination.PageFailsByCause` | src/leo_flow/adapters/dashboard_postgres.py:706-745 | which page reads are refused and as what: an empty selector, a cursor not issued for this query, an unknown recording, or a batch whose attempts are not two, in this order |
| `Pagination.AnchorCoversCommitted` | src/leo_flow/adapters/dashboard_batch_postgres_sql.py:14-17 | an anchor covers every row committed when it is read; where batches are listed it is the largest of their sequences, or -1, and elsewhere the last value of the shared sequence |
| `Pagination.PageSizeByBudget` | src/leo_flow/adapters/dashboard_master_capture_postgres.py:170-178 | a page of master captures takes half as many batches as recordings were asked for, and one at least |
| `Pagination.GroupAttempts` | src/leo_flow/adapters/dashboard_batch_postgres.py:215-232 | one pass files every attempt row under its batch version, in order, and nothing else |
| `Pagination.SteadyTraversalIsSnapshot` | src/leo_flow/adapters/dashboard_batch_postgres.py:163-193 | whenever all rows gained after the first anchor lie above it, following cursors to the end yields the listing of that anchor, each item once, in max(1, ceil(n / page size)) pages |
| `Pagination.CompleteTraversalIsSnapshot` | src/leo_flow/adapters/dashboard_batch_postgres.py:163-193 | the same for whatever is appended between any two statements, for all five listings, once the sequence had been drawn from or the listing anchors at batch rows |
| `Pagination.CompleteTraversalListsNewest` | src/leo_flow/adapters/dashboard_postgres.py:626-654 | a complete traversal lists, in the order of the statement, of every entity the newest version committed when it opened, if that one is asked for, each once, with the activity kinds of then |
| `Pagination.AnchorHoldsIffSettled` | src/leo_flow/adapters/dashboard_postgres_sql.py:3-6 | later appends leave all listings of a kind at an anchor as they are if and only if the sequence had been drawn from or the kind anchors at batch rows |
| `Pagination.FirstRecordingSlipsIn` | migrations/0004_dashboard_projections.sql:3-7 | an anchor read before the first projection shows 1, and a page read after it returns the first recording, which the opening listing did not have |
| `Pagination.EveryTraversalCompletes` | src/leo_flow/adapters/dashboard_postgres.py:626-654 | every traversal begun whose further rows lie above its anchor can be followed to its end; it never sticks and never runs on |
| `Pagination.MintedCursorsReadBack` | src/leo_flow/adapters/dashboard_master_capture_postgres.py:426-494 | a page's own cursor is read back by the next call as the same position |
| `Pagination.LateCommitIsHarmlessIffSuperseded` | src/leo_flow/adapters/dashboard_batch_postgres_sql.py:14-40 | a row committing below the anchor leaves every listing of a kind unchanged if and only if a newer version of its entity was visible, for all five kinds |
| `Pagination.LateFirstVersionIsMissed` | src/leo_flow/adapters/dashboard_batch_postgres_sql.py:14-40 | a batch whose first version commits late is missing from the anchored listing |
| `CampaignCodec.DecodeRecords` | src/leo_flow/adapters/campaign_sqlite.py:199-292 | the decoding loop accepts a list if and only if every record is accepted, and keeps their order |
| `CampaignCodec.StateReadsBackIffBelongs` | src/leo_flow/adapters/campaign_sqlite.py:164-292 | an encoded state decodes, with its units rebuilt, if and only if every record is about the unit its definition prescribes |
| `CampaignCodec.AcceptedPayloadsAreCanonical` | src/leo_flow/adapters/campaign_sqlite.py:199-292 | a payload the reader accepts is byte for byte the encoding of what was read |
| `CampaignCodec.StatePayloadByFields` | src/leo_flow/adapters/campaign_sqlite.py:164-197 | a stored payload is at most 16 MiB and an object of just the digest, the revision and the list of records |
| `CampaignJournal.SqliteCampaignJournal.Initialize` | src/leo_flow/adapters/campaign_sqlite.py:77-102 | the transaction on the table: new row, or the stored state after its integrity check |
| `CampaignJournal.SqliteCampaignJournal.Load` | src/leo_flow/adapters/campaign_sqlite.py:104-112 | the stored state or the right failure |
| `CampaignJournal.SqliteCampaignJournal.CompareAndSwap` | src/leo_flow/adapters/campaign_sqlite.py:114-145 | the guarded update: committed only at the expected revision under the same definition |
| `CampaignJournal.OnlyCommitsChangeRows` | src/leo_flow/adapters/campaign_sqlite.py:77-145 | a losing, invalid or reading call changes nothing, and a commit touches its own campaign only |
| `CampaignJournal.CallsByColumns` | src/leo_flow/adapters/campaign_sqlite.py:77-161 | why a call fails, for each of the five failures, and the one row that it writes when it commits |
| `CampaignJournal.ReadersSeeTheLastState` | src/leo_flow/adapters/campaign_sqlite.py:77-112 | in every run, opening or loading a campaign with a history answers the state committed last with its units rebuilt, or fails exactly when that is not whole under the caller's definition; one without a history cannot be loaded, and opening it commits revision 0 |
| `CampaignJournal.SwapSucceedsIff` | src/leo_flow/adapters/campaign_sqlite.py:114-145 | in every run a swap succeeds if and only if the replacement is one revision on under the caller's definition, fits the limit, and the history under that definition ends at the expected revision; each failure has its own cause |
| `CampaignJournal.RevisionsFormOneChain` | src/leo_flow/adapters/campaign_sqlite.py:77-145 | for every interleaving the committed states form one chain 0, 1, 2, ... under one definition digest, and the row holds the last |
| `CampaignJournal.SwapIsLogged` | src/leo_flow/adapters/campaign_sqlite.py:114-145 | a successful swap appends exactly its replacement to the committed history |
| `CampaignJournal.EachRevisionIsWonOnce` | src/leo_flow/adapters/campaign_sqlite.py:114-145 | two successful swaps from one revision are the same swap |
| `CampaignJournal.EachRevisionHasAWinner` | src/leo_flow/adapters/campaign_sqlite.py:114-145 | every committed revision after the first was won by some client's swap |
| `CampaignJournal.WrittenRowReadsBackIffRecordsBelong` | src/leo_flow/adapters/campaign_sqlite.py:147-161 | after any run, the last written row passes the reader's check if and only if its records belong to its definition |
| `CampaignJournal.ForeignRecordIsStoredAndRefused` | src/leo_flow/adapters/campaign_sqlite.py:114-161 | a record of a unit the definition cannot build is stored by the swap and refused by the next load |
| `CaptureBatch.RevisionsStopAtTwo` | src/leo_flow/contracts/capture_batch.py:173-208 | a valid snapshot has at most two outcomes, and two only in the order of the expected attempts |
| `CaptureBatch.RecordGrows` | src/leo_flow/contracts/capture_batch.py:256-277 | recording changes nothing or adds exactly the outcome, one revision up |
| `CaptureBatch.RecordingOrderIsIrrelevant` | src/leo_flow/contracts/capture_batch.py:256-277 | two outcomes can be recorded in either order with one result |
| `CaptureBatch.KnownOutcomeIsIdle` | src/leo_flow/contracts/capture_batch.py:256-277 | recording an outcome again is a no-op |
| `CaptureBatch.ValidByFields` | src/leo_flow/contracts/capture_batch.py:173-208 | a snapshot is valid if and only if its two attempts are ordered and distinct and it has no outcome, one of either attempt, or one of each in their order with different recordings |
| `CaptureBatch.RecordByFields` | src/leo_flow/contracts/capture_batch.py:256-277 | exactly which outcomes are refused, for which of the three reasons, and where an accepted one is put |
| `BatchStore.SqliteCaptureBatchStateStore.Create` | src/leo_flow/adapters/capture_batch_sqlite.py:63-96 | the create transaction on the table |
| `BatchStore.SqliteCaptureBatchStateStore.Get` | src/leo_flow/adapters/capture_batch_sqlite.py:98-104 | the read, behind the integrity check |
| `BatchStore.SqliteCaptureBatchStateStore.CompareAndSwap` | src/leo_flow/adapters/capture_batch_sqlite.py:106-150 | the guarded swap transaction |
| `BatchStore.DurableStoreRefinesMemory` | src/leo_flow/application/capture_batches.py:54-100 | the durable store accepts the same calls as the in-memory one, returns the same snapshots and stays in step with it |
| `BatchStore.FailuresByCause` | src/leo_flow/application/capture_batches.py:54-100 | which failure either store names, by what is stored; the two name different ones if and only if a misnamed replacement meets no batch or another revision |
| `BatchStore.StoredRowsAlwaysReadBack` | src/leo_flow/adapters/capture_batch_sqlite.py:152-173 | after any run every stored row passes the integrity check and yields the last committed snapshot |
| `BatchStore.RevisionsFormOneChain` | src/leo_flow/adapters/capture_batch_sqlite.py:63-150 | a batch's committed snapshots form one chain of revisions, never above 2, under one immutable intent |
| `BatchStore.ChainStartsWhereCreated` | src/leo_flow/adapters/capture_batch_sqlite.py:63-96 | in every run a batch's chain starts with the snapshot of the call that created it, at revision 0 if and only if that call carried no outcome |
| `BatchStore.ChainCanStartAtOne` | src/leo_flow/adapters/capture_batch_sqlite.py:63-96 | create stores a snapshot with one outcome, and the chain starts at 1 |
| `BatchStore.RegisteredChainsStartAtZero` | src/leo_flow/application/capture_batches.py:119-128 | where no creation carries an outcome every chain starts at 0 |
| `BatchStore.BatchesOnlyAdvance` | src/leo_flow/adapters/capture_batch_sqlite.py:106-150 | over any run a batch keeps its intent and its revision never falls |
| `BatchStore.RecordedSwapsLoseNothing` | src/leo_flow/application/capture_batches.py:135-159 | a swap computed from a stale read that still succeeds keeps every outcome already stored |
| `BatchStore.OutcomesAreNeverLost` | src/leo_flow/application/capture_batches.py:135-159 | in every run whose successful swaps propose what was recorded on an earlier read, no outcome of a batch is ever lost or changed |
| `BatchStore.LosingCallsChangeNothing` | src/leo_flow/adapters/capture_batch_sqlite.py:63-150 | a failing or reading call changes nothing, and no call touches another batch |
| `BatchStore.EachRevisionIsWonOnce` | src/leo_flow/adapters/capture_batch_sqlite.py:106-150 | two successful swaps of a batch from one revision are the same step of the run |
| `BatchStore.RecordWithRetries` | src/leo_flow/application/capture_batches.py:135-159 | the bounded loop over what the store answers, a missing batch and every failure included; a recorded result contains the outcome |
| `BatchStore.FirstLookDecides` | src/leo_flow/application/capture_batches.py:135-159 | a missing batch, a refused outcome, another failure of the store and a changed answer each end the loop with their own result; only a lost swap leads to another try |
| `BatchStore.OneTryDecidesTheLoop` | src/leo_flow/application/capture_batches.py:135-159 | in every run, unless all tries are lost to other clients, the loop answers what the batch held at the read of the first try not lost: missing, recorded already, refused, or recorded now; the store never fails it |
| `BatchStore.SwapLosesIffMoved` | src/leo_flow/application/capture_batches.py:135-159 | in any run, the swap of a try meets the batch as the try read it or further on, and loses if and only if its revision moved |
| `BatchStore.ThreeTriesSuffice` | src/leo_flow/application/capture_batches.py:106-159 | in any run, wherever the other clients' calls fall, at most two tries are ever lost |
| `BatchStore.TwoTriesCanBeExhausted` | src/leo_flow/application/capture_batches.py:106-159 | a run in which both of two tries are lost |
| `BatchStore.RecordedStaysRecorded` | src/leo_flow/application/capture_batches.py:135-159 | an outcome reported as recorded is in the store, and stays there while all clients swap what they recorded |
| `Locks.PlansAreOrdered` | src/leo_flow/adapters/dashboard_projection_postgres.py:469-473 | every writer takes each of its keys once, in the one order shared by all writers |
| `Locks.PlansByText` | src/leo_flow/adapters/dashboard_projection_postgres.py:469-473 | by their text: the pass takes exactly the keys of the command's identities, ascending, each once; a recording writer takes its detail's key after them |
| `Locks.ReachableStatesKeepInv` | src/leo_flow/adapters/dashboard_projection_postgres.py:469-473 | in every reachable state the owned locks are exactly those of the unfinished writers' prefixes |
| `Locks.LocksAreExclusive` | src/leo_flow/adapters/dashboard_projection_postgres.py:469-473 | no two transactions hold one lock |
| `Locks.SomeWriterCanProceed` | src/leo_flow/adapters/dashboard_projection_postgres.py:170-175 | in every reachable state with an unfinished writer, some writer can lock or commit |
| `Locks.EveryRunCanDrain` | src/leo_flow/adapters/dashboard_projection_postgres.py:334-338 | every run can be driven to the end of all its transactions |
| `Locks.ProceedingDrains` | src/leo_flow/adapters/dashboard_projection_postgres.py:469-473 | each lock or commit uses up part of a finite budget, so waiting cannot go round for ever |
| `Deadlocks.CanDeadlockIffPlansCanBeStuck` | src/leo_flow/adapters/dashboard_projection_postgres.py:469-473 | for any hash, a deadlock is reachable if and only if some plans, each stopped part way, hold disjoint locks and each want a lock another of them holds |
| `Deadlocks.RequestsCanDeadlockIff` | src/leo_flow/adapters/dashboard_projection_postgres.py:469-473 | given requests, whenever they arrive, can end up deadlocked if and only if some positions in their plans are stuck on each other |
| `Deadlocks.DistinctNumbersNeverStick` | src/leo_flow/adapters/dashboard_projection_postgres.py:469-473 | with distinct lock numbers for distinct keys no plans can be stuck on each other |
| `Deadlocks.CollisionsCanDeadlock` | src/leo_flow/adapters/dashboard_projection_postgres.py:469-473 | a hash under which two writers can wait for each other for ever |
| `Facts.ProjectFacts` | src/leo_flow/adapters/dashboard_projection_postgres.py:184-226 | the loop over a command's facts, as a function of the table |
| `Facts.AddingFacts` | src/leo_flow/adapters/dashboard_projection_postgres.py:184-226 | afterwards every fact has its one row and its own identity, and nothing unnamed was added |
| `Facts.ReplayedFactsAddNothing` | src/leo_flow/adapters/dashboard_projection_postgres.py:184-226 | replaying facts the table holds changes nothing and returns the same sequences |
| `ProjectionWriters.Dashboard.ProjectRecording` | src/leo_flow/adapters/dashboard_projection_postgres.py:51-157 | the recording transaction: all of it or nothing, with its receipt, the detail publication included |
| `ProjectionWriters.Dashboard.ProjectFeatures` | src/leo_flow/adapters/dashboard_projection_postgres.py:166-231 | the feature transaction, completing its recording |
| `ProjectionWriters.Dashboard.ProjectModel` | src/leo_flow/adapters/dashboard_projection_postgres.py:233-239 | the base model transaction |
| `ProjectionWriters.Dashboard.ProjectRelease` | src/leo_flow/adapters/dashboard_projection_postgres.py:241-253 | the release transaction, which requires its base model |
| `ProjectionWriters.Dashboard.WriteModelRow` | src/leo_flow/adapters/dashboard_projection_postgres.py:317-386 | identity, base and conflict checks, then reuse of a row or one append |
| `ProjectionWriters.Dashboard.CheckAll` | src/leo_flow/adapters/dashboard_projection_postgres.py:476-497 | identities pass if and only if each is absent or identical to the stored one |
| `ProjectionRuns.TransactionsAreSafe` | src/leo_flow/adapters/dashboard_projection_postgres.py:51-253 | every transaction, committed or rolled back, keeps the database consistent and only moves it forward |
| `ProjectionRuns.RunsOnlyMoveForward` | src/leo_flow/adapters/dashboard_projection_postgres.py:51-253 | over every serial run rows are only appended, recorded identities never change and a latest `complete` never reverts |
| `ProjectionRuns.EveryReachableDatabaseIsConsistent` | src/leo_flow/adapters/dashboard_projection_postgres.py:51-386 | every database reached by serial transactions satisfies the table invariants |
| `ProjectionRuns.CompleteKeepsConsistency` | src/leo_flow/adapters/dashboard_projection_postgres.py:443-466 | completing a recording makes its latest version complete and touches no feature or identity |
| `ProjectionRuns.FeaturesAreHeld` | src/leo_flow/adapters/dashboard_projection_postgres.py:166-231 | a committed feature command leaves its rows, its identities and a complete recording |
| `ProjectionRuns.FeatureReceiptNamesCompleteVersion` | src/leo_flow/adapters/dashboard_projection_postgres.py:443-466 | after a committed feature command, first or replayed, the last entry of the receipt is the recording's newest version, which is complete, carries the values of the one before, and is new exactly when that was not complete |
| `ProjectionRuns.FeatureReplayIsIdle` | src/leo_flow/adapters/dashboard_projection_postgres.py:166-231 | replaying a feature command at any later time changes nothing; while the catalog holds its reference it succeeds with the same feature sequences |
| `ProjectionRuns.RecordingIsHeld` | src/leo_flow/adapters/dashboard_projection_postgres.py:51-157 | a committed recording command is the recording's latest version, under its identity, with all its activities at the receipt's sequences |
| `ProjectionRuns.RecordingReplayIsIdleIffCurrent` | src/leo_flow/adapters/dashboard_projection_postgres.py:79-103 | replaying a recording command later writes nothing if and only if its values are still the latest |
| `ProjectionRuns.RecordingReplayCanWrite` | src/leo_flow/adapters/dashboard_projection_postgres.py:79-103 | a recording projected with its object, without it, and again with it: the third command succeeds and appends a version |
| `ProjectionRuns.PublishedRecordingIsHeld` | migrations/0026_dashboard_recording_detail_waterfall_projection.sql:207-247 | publishing the detail, first or repeated, leaves the recording's version, activities and identity held, with the detail's sequence last in the receipt |
| `ProjectionRuns.ModelReplayIsIdle` | src/leo_flow/adapters/dashboard_projection_postgres.py:317-386 | replaying a model or release command at any later time changes nothing and returns the same sequence |
| `ProjectionRuns.AliasNamesOneModelForever` | src/leo_flow/adapters/dashboard_projection_postgres.py:317-386 | over every serial run a release alias names one model, in one row, for ever |
| `ProjectionRuns.ReleasesHaveEarlierBases` | src/leo_flow/adapters/dashboard_projection_postgres.py:317-386 | over every serial run, behind every release row stands an earlier base row of the same model with the same content |
| `ProjectionColumns.VersionsByColumns` | src/leo_flow/adapters/dashboard_projection_postgres.py:79-103 | a first version is pending, a changed one keeps the newest analysis state, an unchanged one is not written again |
| `ProjectionColumns.CompletionByColumns` | src/leo_flow/adapters/dashboard_projection_postgres.py:443-466 | completing names the newest version if it is complete, and otherwise appends its values as complete; an unknown recording is refused |
| `ProjectionColumns.RecordedVersionByColumns` | src/leo_flow/adapters/dashboard_projection_postgres.py:51-157 | a committed recording command writes at most that version, names it first and touches no analysis table |
| `ProjectionColumns.NewFactsAreNumberedOn` | src/leo_flow/adapters/dashboard_projection_postgres.py:200-226 | new fact rows come behind the old ones under the next values of the sequence, none left out |
| `ProjectionColumns.NewIdentitiesNameTheirRows` | src/leo_flow/adapters/dashboard_projection_postgres.py:200-226 | an identity not stored before is stored with the sequence of its fact, the stored ones stay, and there are no others |
| `ProjectionColumns.RecordingsRefusedByColumns` | src/leo_flow/adapters/dashboard_projection_postgres.py:51-157 | which recording commands are refused, as a conflict or as invalid input |
| `ProjectionColumns.FeaturesRefusedByColumns` | src/leo_flow/adapters/dashboard_projection_postgres.py:166-231 | which feature commands are refused, as a conflict or as invalid input |
| `ProjectionColumns.ModelsByColumns` | src/leo_flow/adapters/dashboard_projection_postgres.py:317-386 | a free slot gets one row with the next sequence and a taken one is named again; the identity is stored once with that sequence |
| `ProjectionColumns.ModelCommandsByColumns` | src/leo_flow/adapters/dashboard_projection_postgres.py:233-386 | which model and release commands are refused, as a conflict or as invalid input; a committed one names its row |
| `Statements.TransactionIsItsWrites` | src/leo_flow/adapters/dashboard_projection_postgres.py:51-386 | a transaction commits exactly what the answers to its statements decide, and is refused exactly when they refuse it |
| `ConcurrentWriters.WorkersAreApart` | src/leo_flow/adapters/dashboard_projection_postgres.py:60-63 | two transactions past their locking pass have no lock key in common, whatever the hash |
| `ConcurrentWriters.AnswersFollowCommits` | src/leo_flow/adapters/dashboard_projection_postgres_sql.py:62-102 | where sequence order agrees with commit order, a statement ordered by sequence returns the row committed last |
| `ConcurrentWriters.CommitIsSerial` | src/leo_flow/adapters/dashboard_projection_postgres.py:51-253 | a commit is the whole transaction run at once on the serial tables, although its statements ran at different times |
| `ConcurrentWriters.EveryInterleavingIsSerial` | src/leo_flow/adapters/dashboard_projection_postgres.py:51-386 | for every interleaving and any hash the committed tables are those of the committed commands run one after another, and the versions of each entity are numbered in commit order |
| `ConcurrentWriters.CompleteNeverReverts` | src/leo_flow/adapters/dashboard_projection_postgres.py:443-466 | in every interleaving a recording whose newest row is complete stays so |
| `ConcurrentWriters.StoredFactsNeverChange` | src/leo_flow/adapters/dashboard_projection_postgres.py:51-386 | in every interleaving rows are only appended, and stored identities and details never change |
| `ConcurrentWriters.AliasNamesOneModelForever` | src/leo_flow/adapters/dashboard_projection_postgres.py:317-386 | in every interleaving a release alias names one model, in one row, for ever |
| `ConcurrentWriters.ReleasesFollowTheirBases` | src/leo_flow/adapters/dashboard_projection_postgres.py:317-386 | in every interleaving a release row follows a base row of its model with its content, in commit order and in sequence |
| `ConcurrentWriters.LaterVersionsAreNewer` | src/leo_flow/adapters/dashboard_projection_postgres.py:60-103 | a recording's version committed later carries the larger sequence, however early another transaction drew |
| `ConcurrentWriters.ReplaysCommitNothing` | src/leo_flow/adapters/dashboard_projection_postgres.py:166-386 | in every interleaving a feature, model or release command that has committed once commits nothing more |
| `ConcurrentWriters.SomeSessionCanProceed` | src/leo_flow/adapters/dashboard_projection_postgres.py:469-473 | while a transaction is open, some transaction can take its next lock or holds them all |
| `AnchoredReads.QuietAnchorsHold` | src/leo_flow/adapters/dashboard_postgres_sql.py:3-43 | if no open transaction holds a value drawn at or below an anchor, no later commit, in any interleaving, changes a recording or feature listing at it |
| `AnchoredReads.QuietTraversalIsSnapshot` | src/leo_flow/adapters/dashboard_postgres.py:626-654 | a traversal opened at such an anchor, its statements falling anywhere between the writers' steps, adds up to what its opening showed |
| `AnchoredReads.RecordingListingByColumns` | src/leo_flow/adapters/dashboard_postgres_sql.py:8-31 | on what the interleaved writers stored: listed are exactly the newest committed versions at the anchor that began in the range on an asked radio, shown with their own columns |
| `AnchoredReads.FeatureListingByColumns` | src/leo_flow/adapters/dashboard_postgres_sql.py:92-108 | listed are exactly the newest committed features of the recording at the anchor whose method is asked for |
| `AnchoredReads.ActivityKindsByColumns` | src/leo_flow/adapters/dashboard_postgres_sql.py:8-31 | a recording comes with the kinds of its activities as the writers stored them |
| `BatchPublication.BatchProjection.PublishBatch` | migrations/0021_dashboard_capture_batch_projection.sql:315-400 | the routine past its field checks: latest version, guards, the loop over the attempts, reuse or one append |
| `BatchPublication.BatchProjection.CompareAttempts` | migrations/0021_dashboard_capture_batch_projection.sql:344-380 | the loop refuses exactly rewritten evidence and regressing results, and otherwise tells stale replays from other changes |
| `BatchPublication.PublishedIffAdvances` | migrations/0021_dashboard_capture_batch_projection.sql:323-386 | beside the latest version a different valid view becomes a new one if and only if it keeps the intent, terminal capture facts and readable results; otherwise nothing changes |
| `BatchPublication.IgnoredIffReplayed` | migrations/0021_dashboard_capture_batch_projection.sql:323-387 | on the fields: a different valid view is answered with the latest sequence if and only if it keeps terms and evidence, replays some readable result as queued from a trusted role and changes no other analysis; it is published if and only if it keeps them and no changed analysis was readable; everything else is a conflict |
| `BatchPublication.ValidIffConsistentRows` | migrations/0021_dashboard_capture_batch_projection.sql:12-86 | the routine accepts exactly the views whose two attempts and batch meet the check constraints of their tables and agree: revision, skews and eligibility follow from the attempts |
| `BatchPublication.PublicationsByColumns` | migrations/0021_dashboard_capture_batch_projection.sql:315-400 | an invalid view is refused, the first of a batch is published, the latest repeated is answered with its sequence, and whatever is published is the last row, under the next sequence, which is the answer |
| `BatchPublication.AdvancingViewsClimb` | migrations/0021_dashboard_capture_batch_projection.sql:329-343 | the guards on the revision and on a terminal batch's skew and eligibility follow from the checks on the attempts |
| `BatchPublication.VersionsOnlyAdvance` | migrations/0021_dashboard_capture_batch_projection.sql:315-400 | over every run a later version of a batch keeps intent, terminal facts and readable results of an earlier one, at a revision as high and a larger sequence |
| `BatchPublication.ReadableResultsStay` | migrations/0021_dashboard_capture_batch_projection.sql:362-380 | a result once readable is readable in the latest version at any later time, with the same captured evidence |
| `BatchPublication.AnalysisCanMoveIffUnsettled` | migrations/0021_dashboard_capture_batch_projection.sql:362-380 | the analysis facts of a captured attempt can still be changed by some publication if and only if its result is not readable |
| `BatchPublication.RunningCanGoBackToQueued` | migrations/0021_dashboard_capture_batch_projection.sql:362-400 | a queued view published over a running one becomes the latest version |
| `Sweep.UnionDuration` | src/leo_flow/adapters/dashboard_observation_postgres.py:133-143 | the sorted sweep returns exactly the number of distinct nanoseconds covered |
| `Sweep.CoverageIgnoresOrderAndRepeats` | src/leo_flow/adapters/dashboard_observation_postgres.py:133-143 | coverage does not depend on order or duplicates |
| `Sweep.SweepStep` | src/leo_flow/adapters/dashboard_observation_postgres.py:133-143 | what one step adds, given the merged block it stands on |
| `Observation.GroupedIntervalsCoverActivity` | src/leo_flow/adapters/dashboard_observation_postgres.py:53-68 | the clamped intervals filed under an identity cover exactly its activity inside the query |
| `Observation.DutyCycles` | src/leo_flow/adapters/dashboard_observation_postgres.py:93-103 | one duty cycle for each active identity, ascending, each its distinct active nanoseconds over the interval, in [0,1] |
| `Observation.EvidenceRates` | src/leo_flow/adapters/dashboard_observation_postgres.py:104-115 | one evidence row for each compared identity, its counts and rate exact |
| `Observation.Aggregate` | src/leo_flow/adapters/dashboard_observation_postgres.py:45-130 | the view exists if and only if every row is supported; all its figures are exact, the state counts add up and truncation is flagged exactly |
| `Observation.DutyByFields` | src/leo_flow/adapters/dashboard_observation_postgres.py:53-103 | each duty cycle times the interval is the number of nanoseconds in which some segment of that radio or receiver ran; every identity that ran is listed, in ascending order |
| `Observation.EvidenceByFields` | src/leo_flow/adapters/dashboard_observation_postgres.py:70-115 | each evidence row counts the methods compared under its receiver, edge or name and those that scored strictly above their control, and gives their ratio; every compared identity is listed, in ascending order |
| `Observation.StatesByFields` | src/leo_flow/adapters/dashboard_observation_postgres.py:69-92 | each recording is counted under its own state; the first ten thousand are listed in order, and truncation says whether there were more |
| `Decimation.Decimate` | src/leo_flow/adapters/dashboard_doppler_aggregate.py:373-393 | exactly min(n, 128) points, an ordered subsequence with both endpoints and the first least and greatest offsets, at the indices the rule prescribes |
| `Decimation.RoundingIsNearest` | src/leo_flow/adapters/dashboard_doppler_aggregate.py:373-393 | over exact quotients, the spread index is the nearest integer, ties to even |
| `Decimation.SpreadIsAnIndex` | src/leo_flow/adapters/dashboard_doppler_aggregate.py:373-393 | every spread index lies inside the track |
| `Decimation.SpreadReachesBothEnds` | src/leo_flow/adapters/dashboard_doppler_aggregate.py:385-387 | the even spread starts at the first index and ends at the last |
| `Decimation.IndicesByPosition` | src/leo_flow/adapters/dashboard_doppler_aggregate.py:373-393 | kept are exactly the ends, the extrema, the integers nearest to equal steps between the ends, as many as 128 leaves room for, and the first indices in place of steps that fell together |
| `DopplerAggregate.KeptIsBounded` | src/leo_flow/adapters/dashboard_doppler_aggregate.py:84-103 | kept series and their points stay within the maxima |
| `DopplerAggregate.KeptIsStable` | src/leo_flow/adapters/dashboard_doppler_aggregate.py:84-103 | later series never displace earlier ones, and after the series maximum nothing is added |
| `DopplerAggregate.KeptIsMaximalSubsequence` | src/leo_flow/adapters/dashboard_doppler_aggregate.py:84-103 | kept series are a subsequence, and no dropped one would still fit at the end |
| `DopplerAggregate.EverythingIsKeptIffItFits` | src/leo_flow/adapters/dashboard_doppler_aggregate.py:84-103 | nothing is dropped if and only if everything fits |
| `DopplerAggregate.SeriesComeInOrder` | src/leo_flow/adapters/dashboard_doppler_aggregate.py:84-103 | series are those of the tiles, tile after tile |
| `DopplerAggregate.ControlsComeInOrder` | src/leo_flow/adapters/dashboard_doppler_aggregate.py:84-108 | controls are those of the tiles, tile after tile |
| `DopplerAggregate.PointsAddUp` | src/leo_flow/adapters/dashboard_doppler_aggregate.py:94-103 | the point budget counts the points series by series |
| `DopplerAggregate.KeepSeries` | src/leo_flow/adapters/dashboard_doppler_aggregate.py:94-103 | the tile loop with its break and its skip is the flat first-come rule; kept points plus remaining budget is constant |
| `DopplerAggregate.Aggregate` | src/leo_flow/adapters/dashboard_doppler_aggregate.py:81-108 | given the bundles it was handed, fails if and only if a tile mixes inputs; all maxima hold; `truncated` is false exactly when no tile, series or control was dropped |
| `Quantiles.QuantilesAreOrdered` | src/leo_flow/adapters/dashboard_doppler_aggregate.py:363-370 | interpolated over the reals in place of floats, a higher fraction never gives a lower quantile |
| `Quantiles.EveryQuantileIsInRange` | src/leo_flow/adapters/dashboard_doppler_aggregate.py:363-370 | interpolated over the reals in place of floats, a quantile lies between the least and greatest value |
| `Quantiles.QuantileByNeighbours` | src/leo_flow/adapters/dashboard_doppler_aggregate.py:363-370 | over the reals: of the values in ascending order, the quantile is the one at its fraction of the way from first to last, or the mixture of the two around it in proportion |
| `HttpServer.BoundedServer.ProcessRequest` | src/leo_flow/adapters/dashboard_http.py:49-60 | accepting a request, up to the running worker or the propagated failure, as steps |
| `HttpServer.BoundedServer.ProcessRequestThread` | src/leo_flow/adapters/dashboard_http.py:62-76 | the worker serves with its own snapshot, drops it and gives the slot back |
| `HttpServer.BoundedServer.InstallHandler` | src/leo_flow/adapters/dashboard_http.py:135-155 | installing or clearing the handler touches nothing else |
| `HttpServer.SlotsAreConserved` | src/leo_flow/adapters/dashboard_http.py:42-70 | in every reachable state free slots plus requests in flight make the maximum, snapshots are exactly those of waiting and running requests, and no release overflows the semaphore |
| `HttpServer.EachSlotIsReleasedOnce` | src/leo_flow/adapters/dashboard_http.py:49-70 | each accepted request takes one slot and gives it back exactly once, on completion and on spawn failure |
| `HttpServer.RequestsSeeTheHandlerOfTheirAcceptance` | src/leo_flow/adapters/dashboard_http.py:72-76 | a request sees the handler installed when it was accepted, whatever is installed or cleared later |
| `HttpServer.EveryRunCanDrain` | src/leo_flow/adapters/dashboard_http.py:49-70 | from every reachable state the requests in flight can finish, whichever of the workers still to be started do start, and then every slot is free |
| `Ci16.StreamsReadBack` | benchmark/synthetic_iq.py:93 | packed little-endian words read back |
| `Ci16.EveryEvenStreamIsWords` | benchmark/starlink_scan_fixture.py:786-799 | every even byte stream is the packing of its words |
| `Ci16.WordsAreLittleEndian` | benchmark/synthetic_iq.py:93 | each word is two bytes, the low one first, in two's complement |
| `SyntheticIq.StatesStayNonzero` | benchmark/synthetic_iq.py:27-32 | a nonzero generator state never becomes zero |
| `SyntheticIq.StepsCanBeUndone` | benchmark/synthetic_iq.py:27-32 | undoing the three shifts of a step in reverse order gives back the state |
| `SyntheticIq.OutputsCanBeUndone` | benchmark/synthetic_iq.py:27-32 | multiplying an output by the inverse of the constant modulo 2^64 gives back the state |
| `SyntheticIq.DrawsFollowTheSeed` | benchmark/synthetic_iq.py:27-32 | every draw and every state of a run undo to the state before, back to the seed |
| `SyntheticIq.FloorModIsFloored` | benchmark/synthetic_iq.py:35-37 | the remainder is the floored one, with the sign of the divisor |
| `SyntheticIq.NoiseIsResidue` | benchmark/synthetic_iq.py:35-37 | a noise value is the remainder of the raw draw by the 2P+1 values, moved down by the peak |
| `SyntheticIq.EveryNoiseValueIsDrawn` | benchmark/synthetic_iq.py:35-37 | every integer of the noise range is drawn for some raw value |
| `SyntheticIq.RoundingIsNearestTiesAway` | benchmark/synthetic_iq.py:40-44 | Q20 rounding is nearest, ties away from zero, and odd |
| `SyntheticIq.ClosedFormIsStepped` | benchmark/synthetic_iq.py:47-61 | the closed-form phase equals stepping a phase and a frequency accumulator n times modulo 2^64, for every n and all signed parameters |
| `SyntheticIq.DelayIsShift` | benchmark/synthetic_iq.py:76-79 | a receiver delay is exactly a shift of the stepped source, with silence before it |
| `SyntheticIq.QuarterTurnsRotate` | benchmark/synthetic_iq.py:59-61 | the first quarter of the phase points along I and each further quarter rotates by ninety degrees |
| `SyntheticIq.SignalPowerIsConstant` | benchmark/synthetic_iq.py:59-61 | every begun sample carries the squared amplitude |
| `SyntheticIq.SignalFollowsAccumulators` | benchmark/synthetic_iq.py:47-79 | the signal is nothing before the delay; from then on it points where the stepped accumulators and the receiver's offset say |
| `SyntheticIq.WordIsScaledSum` | benchmark/synthetic_iq.py:76-86 | before clipping and apart from the offset, every word is gain / 2^20 times the sum of its signal and its noise, to the nearest integer, ties away from zero |
| `SyntheticIq.WordsAreClipped` | benchmark/synthetic_iq.py:87-93 | a word is its value inside the envelope and the nearer limit outside |
| `SyntheticIq.ClipsAreCounted` | benchmark/synthetic_iq.py:87-93 | a receiver's clip count is the number of its words outside the envelope |
| `SyntheticIq.GenerateCase` | benchmark/synthetic_iq.py:64-103 | eight bytes a sample; word 4s+2r+c is the clipped, rounded signal plus draw number 4s+2r+c with the offset; clip counts are exact; the final state is the nonzero 4n-fold step of the seed; only a zero seed fails |
| `SnrRatio.SumOfSquares` | benchmark/synthetic_iq.py:35-37 | the squares of the 2P+1 noise integers sum to P(P+1)(2P+1)/3 |
| `SnrRatio.RatioIsSignalOverNoise` | benchmark/validate.py:708-718 | the required ratio is the power of every signal sample over the mean noise power |
| `ScanFixture.InterleavingReadsBack` | benchmark/starlink_scan_fixture.py:791-811 | unpacking gives back the two receivers that were interleaved |
| `ScanFixture.EveryPayloadReinterleaves` | benchmark/starlink_scan_fixture.py:791-811 | interleaving gives back every payload of whole frames |
| `ScanFixture.InterleavePair` | benchmark/starlink_scan_fixture.py:802-811 | succeeds if and only if the lengths agree and every component fits sixteen bits |
| `ScanFixture.UnpackPairedReceivers` | benchmark/starlink_scan_fixture.py:791-799 | succeeds if and only if the payload is whole frames |
| `ScanFixture.FramesInOrder` | benchmark/starlink_scan_fixture.py:791-811 | a frame is the first receiver's two components and then the second's |
| `ScanFixture.RoundingIsNearest` | benchmark/starlink_scan_fixture.py:782-783 | over the reals in place of floats: nearest integer, ties away from zero, odd |
| `ScanFixture.RecordedBackgroundSamples` | benchmark/starlink_scan_fixture.py:635-715 | with sums over the reals in place of floats: output, clip counts, peak and active count exact; it fails if and only if there is nothing to average, a nonzero signal sample lies past the background, the signal ends early, the background does not fit its words, or the reject policy meets a sum outside the range |
| `ScanFixture.SumsByComponents` | benchmark/starlink_scan_fixture.py:676-679 | the real part of an addition goes to the first component and the imaginary part to the second, each sum rounded to the nearest integer, ties away from zero |
| `ScanFixture.OutputByComponents` | benchmark/starlink_scan_fixture.py:689-699 | with a signal, each component that leaves the converter is the nearest value of its range |
| `ScanFixture.OutsideIsCounted` | benchmark/starlink_scan_fixture.py:667-671 | the clip count is the number of components outside the range |
| `ScanFixture.PushedIsCounted` | benchmark/starlink_scan_fixture.py:680-684 | the added clip count is the number of components outside the range that were inside it in the background |
| `ScanFixture.ActiveIsCounted` | benchmark/starlink_scan_fixture.py:646-650 | the active count is the number of samples of the signal that are not zero |
| `ScanFixture.ClippingIsAccountedFor` | benchmark/starlink_scan_fixture.py:675-699 | added <= total <= background + added |
| `ScanFixture.InjectionIsHonest` | benchmark/starlink_scan_fixture.py:675-713 | with sums over the reals in place of floats: without a signal the output is the background; with one every component is inside the range; without clipping it is the sums themselves |
| `Calibration.BalancedAccuracyThreshold` | benchmark/starlink_e2e_calibration.py:163-182 | fails if and only if a class is missing; otherwise the chosen candidate is at least as good as every real threshold and the largest among equals |
| `Calibration.EveryThresholdHasACandidate` | benchmark/starlink_e2e_calibration.py:163-182 | every real threshold is matched by a candidate, also when no finite value lies above the greatest score |
| `Calibration.NumeratorOrdersAccuracy` | benchmark/starlink_e2e_calibration.py:173-180 | dropping the common denominator does not change which threshold is better |
| `Calibration.ThresholdIgnoresOrder` | benchmark/starlink_e2e_calibration.py:163-182 | any arrangement of the same training values chooses the same threshold |
| `Calibration.CollectMaxima` | benchmark/starlink_e2e_calibration.py:68-88 | every recording contributes to each method its greatest score, if and only if it scored exactly the expected methods |
| `Calibration.IsExact` | benchmark/starlink_e2e_calibration.py:124-137 | a method identity is accepted if and only if it is two nonempty parts without blanks around one `@` |
| `Calibration.ValidateMembership` | benchmark/starlink_e2e_calibration.py:140-146 | membership passes if and only if no feature set and no recording appears twice |
| `Calibration.CalibrateTrainThresholds` | benchmark/starlink_e2e_calibration.py:58-98 | a rule exists if and only if the method list is exact, members are unique, both classes are there, every recording scored exactly those methods and each method has one meaning; each threshold is then optimal over all reals; the first fault in the program's order is the one reported |
| `Calibration.TrainingSetByFields` | benchmark/starlink_e2e_calibration.py:68-146 | members are unique, the method list is exact and the scored methods are the expected ones, each on the fields of the members |
| `Calibration.FittedByFields` | benchmark/starlink_e2e_calibration.py:68-98 | behind every fitted threshold stand one value for each recording, its label and its greatest score under the method, for which no real threshold is more accurate |
| `Calibration.MeaningsAreOne` | benchmark/starlink_e2e_calibration.py:90-94 | a method has one meaning of its score if and only if the set of meanings given to it has one element at most |
| `Calibration.AccuracyIsMeanRate` | benchmark/starlink_e2e_calibration.py:173-180 | balanced accuracy is the mean of the share of present targets at or above the threshold and that of absent ones below it |
| `Calibration.ChosenIsGreatestOfTheBest` | benchmark/starlink_e2e_calibration.py:163-182 | of the thresholds offered that are as accurate, the chosen one is the greatest |
| `OutputSize.ThirdRewriteIsFixed` | benchmark/starlink_detector_matrix.py:1572-1584 | for a report of any size the third rewrite from zero is a fixed point |
| `OutputSize.RewritesStayBelowFixedPoints` | benchmark/starlink_detector_matrix.py:1572-1584 | rewriting climbs towards the least self-describing size |
| `OutputSize.TwoSizesIff` | benchmark/starlink_detector_matrix.py:1572-1584 | a report has more than one self-describing size if and only if the text around the number takes 10^k - 1 - k bytes for some k >= 1 |
| `OutputSize.TheTwoSizes` | benchmark/starlink_detector_matrix.py:1572-1584 | such a report has exactly the sizes 10^k - 1 and 10^k |
| `OutputSize.SelfDescriptionIsNotUnique` | benchmark/starlink_detector_matrix.py:1572-1584 | the smallest such report, with sizes 9 and 10 |
| `OutputSize.Report.StabilizeOutputSize` | benchmark/starlink_detector_matrix.py:1572-1578 | from zero the loop always returns, the stored count is the encoded length and the least such count; the error is unreachable |

## Left out

- The continuous-collection journal (`src/leo_flow/adapters/continuous_collection_sqlite.py`): its transactions are statement for statement those of the campaign journal; its state adds a phase, a halt reason and constructor checks that would repeat the codec proof.
- Row update times, SQLite and PostgreSQL connections, timeouts, roles and WAL settings.
- The field checks of a recording's detail view inside its publication (`migrations/0026_dashboard_recording_detail_waterfall_projection.sql:60-204`): a view is well formed or not. Its check against the recording row cannot fail there, because the same transaction has just written that row.
- The first sequence stored with an identity and the sequence of a detail row, in the interleaved database only; the serial tables have both.
- The track and storage-health writers: the same lock, check and append shape with fewer cases. The track listing is among the five paginated ones.
- The presence, types and identifier patterns of a published batch view's fields (`migrations/0021_dashboard_capture_batch_projection.sql:139-235`): a view has them. The publication of batches is modelled one call after another; its own lock is not part of the interleaved transactions.
- What a master-capture row joins at the time of its statement and not at the anchor, the capture duration from the newest recording detail and the QAM summary (`src/leo_flow/adapters/dashboard_master_capture_postgres.py:96-142`): two pages may see these at different times.
- Command digests and field-by-field validation of commands, views and receipts.
- PostgreSQL collations: text is ordered by code point.
- JSON numbers with a fraction, and duplicate keys inside a JSON object.
- Floating-point rounding of duty cycles, rates, quantile positions, spread indices, sums of background and signal, and of the logarithmic ratios in fixture truths.
- Interrupts raised asynchronously inside the HTTP server's own bookkeeping, socket I/O, request timeouts and the acceptance event.
- Pilot waveform synthesis, detectors, plotting, HDF5 and SigMF, command-line operators and digests of generated bytes.
- `DopplerAggregate.Aggregate`: the failures of the bundle reader before it, for catalog, configuration and object mismatches (`src/leo_flow/adapters/dashboard_doppler_aggregate.py:131-187`), are not modelled; behind that reader the failure for mixed inputs cannot arise.
- `Quantiles.QuantilesAreOrdered`: exact reals stand for the floats in which the program interpolates.
- `Quantiles.EveryQuantileIsInRange`: exact reals stand for the floats in which the program interpolates.
- `ScanFixture.RoundingIsNearest`: exact reals stand for the floats that are rounded.
- `ScanFixture.InjectionIsHonest`: exact reals stand for the floats that are summed and rounded.
- `ScanFixture.RecordedBackgroundSamples`: sums of background and signal are exact; the digests and power ratios of the truth record are not modelled.
- `Calibration.CalibrateTrainThresholds`: the thresholds are a map; the sorted order of the rule's tuple, its digests and the split group tokens are not modelled.
- `Deadlocks.CollisionsCanDeadlock`: its hash is made up; which texts collide under PostgreSQL's own hash is not modelled.
- `Sweep.UnionDuration`: asks for nonempty intervals, because its only caller drops empty ones first.
- `OutputSize.Report.StabilizeOutputSize`: says nothing about convergence from a stored count other than zero, because every report starts at zero.
