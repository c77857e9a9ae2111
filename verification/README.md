# StellarRisk: a verified model

StellarRisk watches Stellar transactions, raises alerts by fixed rules, records what investigators decide,
and keeps a hash-chained audit log of it all. This project models the parts that carry state, ordering and
arithmetic, and proves what they guarantee. `dafny verify dfyconfig.toml` checks everything.

What is proved, in short:

- **Audit chain.** Two logs that verify and share a head hash agree in every hashed field, or a computed
  witness breaks the hash (a collision or a preimage of the genesis value). Verification names exactly the
  first bad record. Of all lists made of genuine records exactly the prefixes of the log verify, so the
  guarantee is relative to the head.
- **Concurrent appends.** Under every interleaving of lock, two reads, insert and return, with failure or
  cancellation anywhere, every snapshot verifies, sequences are 0..n-1, and the log is what the in-memory
  store holds after the committed appends in an order that respects real time. Each row holds the event that
  was submitted, its text included, and the hash of its own fields. An insert that the driver
  executes after its caller was cancelled is survived exactly when it does not fall between another task's
  two reads.
- **Decisions.** Under every interleaving the status is that of the last stored decision; stored decisions
  are the audited ones plus those stopped between store and audit; each audited previous status was real,
  and it is the immediately preceding one exactly when no decision stored between the request's read and its
  commit changed the status, in particular always when requests on an alert do not read while another works.
- **Replay and AI.** When operations run one after another, whatever fails, the log alone rebuilds every
  alert's existence, transaction, rules, severity, score, status and decisions exactly when no stored alert or
  decision lost its audit record; an alert keeps what it was opened with; deleting all AI operations from such
  a run changes no status, no decision and no other audit event. Such runs are runs of the interleaved
  protocol.
- **Replay of interleaved decisions.** The log lists an alert's decisions as they were stored, and so gives the
  sequence and the status, exactly when every audit took the oldest unaudited decision and none is left. It
  can go wrong as soon as a decision is stored between another's store and its audit, and not before.
- **On-chain anchors.** Every anchor is the commitment to a stored decision on its alert, and the latest one
  when decisions on the alert are serialised.
- **Ingestion.** Under crashes, restarts and failed writes no cursor passes a record that was not handled,
  provided that no poll made without a cursor starts past the point where the deployment began; that is the
  exact condition, and Horizon violates it when it has to start without a stored cursor a second time, unless
  nothing new appeared in between. Each record is handled once without crashes, and the transactions table
  never shows a replay, whatever each fetch and each save comes to. A poll of either source and a round of the
  loop are steps of that machine, and Horizon's cursor is the paging token of the last record.
- **History and rules.** Comparing RFC 3339 texts is comparing times for years 0-9999, and exactly how far
  beyond is settled for every two instants, so the history built in SQL is the chronological one, entry by
  entry, with its hourly rate. Each built-in rule triggers exactly under its condition; score and severity have
  a closed form, ignore the order of movements, and never drop when something is added. The alert opened
  names what the transaction involves and what was found.
- **Text.** The canonical JSON texts are decodable, HTML escaping equals one simultaneous substitution and
  can be undone, and sanitising is idempotent, keeps clean text and gives clean output.

How it is modelled:

- The hash is an arbitrary function argument. Nothing is assumed about it; proofs construct collisions. The
  chain theory is stated for any injective text form (`Sealing`, `Hashing`), and the text forms in use are
  proved injective.
- Protocols are state machines over atomic steps: one SQL statement, or one database transaction. An action
  that is not possible leaves the state alone, so results quantify over all action sequences. History
  variables are marked as such.
- Random ids, clock readings, faults and network outcomes are arguments. The database answers queries by
  functions of the table it holds; results may list ties in any order.
- Times are integer nanoseconds on the proleptic Gregorian calendar; weights, scores and amounts are exact
  numbers.
- Stores and services are classes whose methods are proved equal to functions; the theorems are about those
  functions.

Where the code and its documentation differ, the model follows the code:

- The documentation hashes the previous hash followed by a canonical record (README.md:144); the code hashes
  one JSON object that contains the previous hash, with its keys in alphabetical order.
- The documentation of `verify_chain` says deletions are found; deletions at the end are not, and only those
  (`OnlyPrefixesVerify`).
- The velocity rule is described as "more than N"; it triggers from N on.
- In the pipeline a transaction is part of its own history, so the unusual-asset rule stays silent for it and
  the velocity count includes it twice over (`FreshTransactionSeesItself`).
- A summary is checked before it is sanitised, so an accepted summary can be stored empty
  (`AcceptedSummaryEmptyIff`).

## Model

| member | source | states |
|---|---|---|
| `Calendar.TextOrderIsTimeOrder` | crates/storage/src/tx_repo.rs:69-74 | For years 0000-9999 the order of the stored timestamp texts, with 0, 3, 6 or 9 fraction digits, is the order of time, and equal texts mean equal instants |
| `Calendar.TextOrderNeedsFourDigitYears` | crates/storage/src/tx_repo.rs:69-74 | From the year 10000 on the order is lost: every such instant has a smaller text than every four-digit-year instant |
| `Calendar.TextOrderKeptIff` | crates/storage/src/tx_repo.rs:69-74 | For every two instants in any years: the earlier one has the smaller text exactly when the years are equal, or the later year has four digits, or, both being past 9999 or both negative, the leading digits of their years are in order |
| `Calendar.TextInjective` | crates/audit/src/chain.rs:34 | The timestamp text determines the instant in every year, negative and beyond 9999 included |
| `Calendar.CivilOrder` | crates/storage/src/tx_repo.rs:69-74 | Calendar fields, most significant first, order instants exactly as nanoseconds do |
| `Calendar.DateIs` | crates/storage/src/tx_repo.rs:69-71 | Every date of the calendar is the date of its own day: the one given by the lengths of the years and months before it |
| `Calendar.KnownDates` | crates/storage/src/tx_repo.rs:69-71 | Days are counted as everyone counts them: the Unix epoch, the leap days of 1900, 2000 and 2100, and the first of every month |
| `Calendar.TextColumns` | crates/storage/src/tx_repo.rs:69-71 | Where year, month, day, hour, minute and second stand in the text of an instant with a four-digit year, and what separates them |
| `Calendar.FractionLayout` | crates/storage/src/tx_repo.rs:69-71 | What follows the seconds: the zone, after as many groups of three fraction digits as the nanoseconds take |
| `Json.ObjectRoundTrip` | crates/audit/src/chain.rs:28-36 | A decoder inverts the printed JSON object: escapes, null, strings and signed numbers |
| `Json.EscapesAre` | crates/audit/src/chain.rs:36 | Quotes, backslashes and control characters are escaped as section 7 of RFC 8259 allows and serde_json does |
| `Json.CompactForm` | crates/audit/src/chain.rs:36 | Objects are printed without blanks |
| `AuditChain.CanonicalInjective` | crates/audit/src/chain.rs:28-36 | The hashed text determines all six hashed fields |
| `AuditChain.CanonicalReadsBack` | crates/audit/src/chain.rs:28-35 | Decoding the hashed text gives the six fields under their names, in alphabetical order, null for an absent alert or transaction |
| `AuditChain.CanonicalSealingIsInjective` | crates/audit/src/chain.rs:20-40 | The sealing in use meets the one condition the chain results need |
| `AuditChain.VerifyChain` | crates/audit/src/chain.rs:55-101 | Valid exactly when every link and hash matches; otherwise reports the least bad index, its sequence and the kind of mismatch, and the prefix before it verifies |
| `AuditChain.BreakIsUnique` | crates/audit/src/chain.rs:55-101 | There is only one index at which a log can be reported broken |
| `AuditChain.TamperEvidence` | crates/audit/src/chain.rs:55-101 | Two verified logs with one head agree in length, hash and every hashed field, or a collision or genesis preimage is computed from them |
| `AuditChain.TamperingIsRejected` | crates/audit/src/chain.rs:51-54 | Any edit, deletion, insertion or reordering that keeps the head fails verification, or exhibits a broken hash |
| `AuditChain.OnlyPrefixesVerify` | crates/audit/src/chain.rs:51-101 | Of the lists made of a log's own records, by dropping, repeating or reordering any of them, exactly the log's prefixes verify, or a broken hash is computed |
| `AuditChain.TruncationVerifies` | crates/audit/src/chain.rs:55-101 | Every prefix of a valid log verifies, so tail truncation is invisible without the head |
| `AuditChain.TruncationMovesHead` | crates/audit/src/chain.rs:98 | Dropping a nonempty tail changes the head hash, or exhibits a broken hash |
| `AuditChain.EditBreaksAtRecord` | crates/audit/src/chain.rs:69-97 | Altering hashed fields of one record breaks verification at exactly that record, absent a collision |
| `AuditChain.ResealMovesBreak` | crates/audit/src/chain.rs:58-68 | Resealing the altered record moves the break to its successor; at the end it leaves a valid log with another head |
| `AuditChain.AppendKeepsChain` | crates/audit/src/store.rs:63-83 | Appending the next record keeps the log valid and densely numbered |
| `AuditChain.HashBindsRecord` | crates/audit/src/store.rs:68 | Two appended records with one hash have the same event text, alert, transaction, time and place in the log, or their hashed texts collide |
| `AuditStore.InMemoryAuditStore.Append` | crates/audit/src/store.rs:63-83 | Appends a record that holds the alert, transaction, event, event text, id and time given, numbered by the list length, linked to the last hash, with the hash of its own six fields; keeps a valid log valid |
| `AuditStore.InMemoryAuditStore.ListAll` | crates/audit/src/store.rs:95-99 | Returns the last `limit` records in order; none for a negative limit |
| `AuditStore.InMemoryAuditStore.Verify` | crates/audit/src/store.rs:101-104 | Verdict on whatever records the list holds |
| `AuditStore.SqliteAuditStore.Append` | crates/storage/src/audit_store.rs:51-101 | The same fields, on any table, numbered and linked by what the two queries return; on a valid table that is the in-memory store's record; a failed statement leaves the table unchanged |
| `AuditStore.SqliteAuditStore.ListAll` | crates/storage/src/audit_store.rs:121-131 | The newest-first page, reversed, is the in-memory suffix for every limit from 0 on |
| `AuditStore.SqliteAuditStore.ListForAlert` | crates/storage/src/audit_store.rs:103-110 | Lists the alert's records in sequence order, as filtering the list does |
| `AuditStore.SqliteAuditStore.Verify` | crates/storage/src/audit_store.rs:133-141 | Verdict on the rows in sequence order, for any table contents |
| `AuditStore.AscendingRows` | crates/storage/src/audit_store.rs:134-134 | On a dense table the ordered query lists exactly the rows 0..n-1 |
| `AppendProtocol.EverySnapshotVerifies` | crates/storage/src/audit_store.rs:51-101 | Under every interleaving, failure and cancellation, late inserts of cancelled tasks included unless they fall between another task's reads, the log verifies and sequences equal positions |
| `AppendProtocol.LateInsertSurvivedIff` | crates/storage/src/audit_store.rs:52-88 | Once the driver has executed the insert of a cancelled task, the chain stays valid whatever happens next exactly when no task was between its two reads at that moment, or a broken hash is computed |
| `AppendProtocol.StaleHolder` | crates/storage/src/audit_store.rs:54-88 | A lock holder that goes on from a last hash read before such an insert appends a row that breaks the chain |
| `AppendProtocol.AppendsLinearize` | crates/storage/src/audit_store.rs:51-101 | Under the same condition the log equals the in-memory store after the commits in order; each task commits at most once, its own event; a task told Ok was told its row |
| `AppendProtocol.EveryRowHoldsItsEvent` | crates/storage/src/audit_store.rs:72-101 | In every run at all, orderly or not: the log has one row per commit, numbered from 0 on; row i holds the id, time, alert, transaction, event and event text of commit i, the event being the one its task was submitted with, and the hash of its own six fields |
| `AppendProtocol.CommitOrderIsRealTime` | crates/storage/src/audit_store.rs:51-101 | Committed rows never move, and a task submitted later commits after everything committed so far |
| `AppendProtocol.LockIsNeverLost` | crates/storage/src/audit_store.rs:52 | The lock is held exactly while some task is inside the section; aborting the holder frees it |
| `AppendProtocol.SoloAppendSucceeds` | crates/storage/src/audit_store.rs:51-101 | With the lock free, a task running alone appends and returns the in-memory store's record |
| `AppendProtocol.CancelledAppendMayCommit` | crates/storage/src/audit_store.rs:52-88 | A task cancelled with its insert under way has freed the lock and is not told Ok, and its row is appended when the driver comes to it |
| `Domain.DecisionSpellsItsStatus` | crates/domain/src/decision.rs:30-52 | Four texts are accepted as decisions; a text leads to a status exactly when it is that status's own text, and never to Open; a decision is written as it is read |
| `AlertService.AlertStore.RecordDecision` | crates/storage/src/alert_store.rs:119-139 | Decision row and status change together or not at all; refused for a used id or an unknown alert |
| `AlertService.AlertStore.SetAiStatus` | crates/storage/src/alert_store.rs:108-117 | Sets the AI state of an existing alert; for an unknown alert succeeds and changes nothing |
| `AlertService.AlertStore.Insert` | crates/storage/src/alert_store.rs:50-74 | Stores the alert unless its id is taken |
| `AlertService.Service.Create` | crates/alerts/src/service.rs:46-77 | Stores an open alert with pending AI state and exactly the transaction, accounts, assets, rules, score and severity given, unless the id is taken, then audits the same; says when it succeeds; equals the operation function, faults included |
| `AlertService.Service.Decide` | crates/alerts/src/service.rs:119-161 | Get, transactional record, audit append, in that order: exactly when a decision is stored, what the row and the alert then hold, what is audited, and each outcome; equals the operation function for every fault |
| `AlertService.Service.RecordAiAdvisory` | crates/alerts/src/service.rs:95-102 | Sets the AI state to the advisory, then audits it, also when the alert is unknown; nothing else of the alert changes |
| `AlertService.Service.RecordAiUnavailable` | crates/alerts/src/service.rs:104-113 | Records the reason and time that no advisory is available, and audits the reason |
| `AlertReplay.LogRebuildsEveryAlert` | README.md:153-156 | After any run of operations one after another, faults included, in which no operation changed the tables and then lost its audit append, folding the log alone gives existence, transaction, rules, severity, score, status, AI state (but for the time) and all decisions of every alert, and previous statuses form an unbroken chain from Open |
| `AlertReplay.LogRebuildsHistoryIff` | crates/alerts/src/service.rs:46-161 | After any run of operations one after another, whatever fails: the log rebuilds existence, transaction, rules, severity, score, status and decisions of every alert exactly when no alert or decision was stored whose audit append then failed; lost AI records do no harm to that |
| `AlertReplay.LossIsPermanent` | crates/alerts/src/service.rs:58-76 | In sequential runs: after such a loss there is an alert the log stays short of, however the run goes on |
| `AlertReplay.AiStateRebuiltIff` | crates/alerts/src/service.rs:95-113 | The log tells an alert's AI state, advisory or reason included, exactly when the last AI record stored for it was audited, or left the state the log already told |
| `AlertReplay.FailedAuditHidesDecision` | crates/alerts/src/service.rs:144-158 | When only the audit append of a decision fails, the log still rebuilds the alert as before, unlike the tables |
| `AlertReplay.OperationExtendsLog` | crates/alerts/src/service.rs:46-161 | Every operation keeps the log valid and reports Ok exactly when what it stores is stored and its audit append works; the log is then longer by one record, with the operation's own alert, transaction, event, event text, id and time |
| `AlertReplay.OnlyDecisionsMoveStatus` | crates/alerts/src/service.rs:31-35 | An existing alert's status changes only through a decision on it, to that decision's status, with the decision stored |
| `AlertReplay.CreationIsFinal` | crates/alerts/src/service.rs:46-161 | Whatever operations follow, an alert stays, with the transaction, accounts, assets, rules, score, severity and time it was opened with |
| `AlertReplay.AuditedCreationsHold` | crates/alerts/src/service.rs:58-76 | After any run of operations one after another, whatever fails: each alert whose creation is audited is stored with the transaction, rules, severity and score of that event |
| `AlertReplay.AiInterferesWithNothing` | crates/alerts/src/service.rs:87-113 | Deleting all AI operations from any sequential run, faults included, keeps every status, every decision and the other audit events |
| `DecisionRefinement.SequentialRunsAreProtocolRuns` | crates/alerts/src/service.rs:119-161 | Every run of the service one operation after another, whatever fails, is a run of the interleaved protocol: same alerts and statuses, same decision rows with ids and times, same decision events in the same order |
| `DecisionProtocol.StatusAndAuditAgree` | crates/alerts/src/service.rs:119-161 | Under every interleaving: status is that of the last stored decision or Open; stored equals audited plus pending, as multisets, failed tasks and late audits included |
| `DecisionProtocol.AuditedPreviousStatusWasReal` | crates/alerts/src/service.rs:132-158 | Each audited previous status is one the alert had before that decision was stored |
| `DecisionTimes.PreviousStatusIsExactIff` | crates/alerts/src/service.rs:132-144 | In every run, each audited previous status is the one just before its decision exactly when the last decision stored on the alert between the request's own read and its own commit, if any, led to the same status; read, commit and audit of the request are named in the run |
| `DecisionTimes.OverlapReportsStaleStatus` | crates/alerts/src/service.rs:132-144 | A concrete run of two overlapping decisions in which the second reports a stale previous status |
| `DecisionTimes.LoneReadsReportExactStatus` | crates/alerts/src/service.rs:132-158 | When no request reads the alert while another is at work on it, every audited previous status on that alert is the one immediately before |
| `DecisionLog.LogOrderIff` | crates/alerts/src/service.rs:126-158 | In every interleaved run the log lists exactly the decisions stored on an alert, in the order stored, if and only if every audit on it took the oldest one not yet audited and none is left unaudited; then folding the log gives the tables' decision sequence and status |
| `DecisionLog.SwappedAuditsMislead` | crates/alerts/src/service.rs:144-158 | A concrete run of two overlapping decisions, both audited, whose log gives the reverse sequence and a wrong status |
| `DecisionLog.StoredAloneIsInOrder` | crates/alerts/src/service.rs:144-158 | If no decision on the alert is stored between another's store and its audit, the log always lists them in order, and all of them once none is unaudited |
| `DecisionLog.OneWaitsIff` | crates/alerts/src/service.rs:144-158 | The audits still to come keep the order, however they are made, exactly when at most one stored decision on the alert is unaudited |
| `DecisionLog.CarefulDecisionsReplay` | crates/alerts/src/service.rs:126-158 | When no request reads the alert while another is at work on it and none is cut off between store and audit, the log lists the stored decisions in order, and each previous status is the one that folding the log before it gives |
| `DecisionAnchors.AnchorsAreStoredDecisions` | crates/api/src/routes/alerts_api.rs:63-69 | Every anchor is the commitment to a stored decision on its alert, or two alert ids share a key |
| `DecisionAnchors.SerialisedAnchorIsLatest` | crates/api/src/routes/alerts_api.rs:63-69 | With serialised, anchored decisions on an alert the anchor is the commitment to the latest one, the one its status shows |
| `DecisionAnchors.KeyCollisionBreaksHash` | crates/soroban_anchor/src/hash.rs:8-13 | Two alert ids with one storage key are a collision of the hash itself |
| `AnchorContract.CommitmentBinds` | crates/soroban_anchor/src/hash.rs:19-31 | Equal commitments mean equal decisions in all five fields, or the two hashed texts collide |
| `AnchorContract.DecisionReadsBack` | crates/soroban_anchor/src/hash.rs:20-26 | Decoding the hashed decision text gives its five fields under their names, in alphabetical order |
| `AnchorContract.DecisionTextInjective` | crates/soroban_anchor/src/hash.rs:20-26 | The hashed decision text determines its five fields |
| `AnchorContract.FirstAdminStays` | crates/soroban_anchor/contract/src/lib.rs:44-50 | Over any calls the admin is the first one initialised, for good |
| `AnchorContract.LatestSignedAnchorWins` | crates/soroban_anchor/contract/src/lib.rs:55-68 | The anchor read for a key is that of the last call on it signed by the admin; unsigned calls change nothing |
| `AnchorContract.DecisionAnchorContract.InitializeAdmin` | crates/soroban_anchor/contract/src/lib.rs:44-50 | Succeeds exactly once, and answers AlreadyInitialized afterwards; touches no anchor |
| `AnchorContract.DecisionAnchorContract.AnchorDecision` | crates/soroban_anchor/contract/src/lib.rs:55-63 | Accepted exactly when initialised and signed by the admin, NotInitialized or Unauthorized otherwise; then replaces the anchor of that key only |
| `Transactions.AccountsAndAssets` | crates/alerts/src/service.rs:175-188 | Accounts: everyone touched, once each, ascending; assets: one per asset key, ascending by key |
| `Transactions.SortDedupIsCanonical` | crates/domain/src/transaction.rs:61-77 | Sorting and dropping neighbours with equal keys gives a strictly ascending list with one given element for every key |
| `Transactions.TextsDependOnElements` | crates/domain/src/transaction.rs:67-68 | The sorted, deduplicated list depends only on which texts occur |
| `Transactions.ParticipantsAre` | crates/domain/src/transaction.rs:61-66 | The collected accounts are the source and both ends of every movement, and no others |
| `Transactions.KeyIdentifiesAsset` | crates/domain/src/transaction.rs:25-30 | A key is the code, and the issuer after a colon if there is one; as long as codes have no colon, different assets have different keys |
| `TxHistory.TransactionRepository.Save` | crates/storage/src/tx_repo.rs:19-42 | The first write of an id wins; a later one changes nothing, and no write touches another row |
| `TxHistory.TransactionRepository.BuildAccountHistory` | crates/storage/src/tx_repo.rs:62-136 | From what the queries return for the table as it is: one entry per movement of every recent row, in order, with time, asset, amount and the other side; the baseline count; the rate, which times the whole seconds of the window is 3600 times the count, and is the count below an hour |
| `TxHistory.TextWindowIsTimeWindow` | crates/storage/src/tx_repo.rs:73-81 | A query by text bounds selects exactly the rows of the time window, and text-descending is newest first |
| `TxHistory.HistoryIsChronological` | crates/storage/src/tx_repo.rs:69-124 | The built history is the chronological one: one entry per movement of the rows in the lookback window, newest first; the number of rows in the baseline window; over k whole hours k times the hourly rate is that number, below an hour the rate is; with baseline at least as long as lookback exactly the assets moved in the baseline window |
| `TxHistory.Rfc3339KeepsOrder` | crates/storage/src/tx_repo.rs:69-71 | The timestamp text in use meets the condition of the two results above |
| `Rules.EvaluateLargeTransfer` | crates/rules_engine/src/rules.rs:22-54 | The movements whose amount exceeds the threshold under their asset's key, or the default where there is none, listed in order, with one trigger about each that names movement and threshold |
| `Rules.EvaluateUnusualAsset` | crates/rules_engine/src/rules.rs:193-216 | One trigger at the first movement of each unknown asset key; none for an account without known assets |
| `Rules.RuleRegistry.Register` | crates/rules_engine/src/registry.rs:22-25 | Adds the rule at the end |
| `RuleProperties.HitsAreFlaggedInvolved` | crates/rules_engine/src/rules.rs:158-178 | The hits are exactly the flagged accounts the transaction touches, ascending, once each |
| `RuleProperties.ScoreClosedForm` | crates/rules_engine/src/scoring.rs:7-23 | With the built-in rules the score is the sum 35, 25, 20, 40, 15, 10 times the respective counts of large movements, velocity, frequency, flagged accounts, unknown assets and operation check, all counted from the context directly, but no more than the cap; each severity exactly in its band, none exactly when the count is zero |
| `RuleProperties.ScoreMeans` | crates/rules_engine/src/scoring.rs:7-23 | For any triggers: sum of weights or cap, whichever is less, and the severity of each band, whatever the order of the thresholds |
| `RuleProperties.TriggersAreDeserved` | crates/rules_engine/src/rules.rs:22-250 | A trigger is raised by the built-in rules exactly when its condition on transaction, history, flags and configuration holds, with its rule id, weight and subject |
| `RuleProperties.RuleIdsInOrder` | crates/rules_engine/src/rules.rs:253-262 | The triggers come rule by rule in the fixed order, as many for each as the closed form counts |
| `RuleProperties.MovementOrderIsIrrelevant` | crates/rules_engine/src/rules.rs:22-216 | Reordering movements keeps the multiset of triggers, the score and the severity |
| `RuleMonotony.MoreNeverScoresLess` | crates/rules_engine/src/lib.rs:25-29 | Adding movements anywhere in the list, flagged accounts or operations never lowers score or severity, for any thresholds and nonnegative cap |
| `RuleMonotony.RegisteringNeverScoresLess` | crates/rules_engine/src/registry.rs:22-36 | Nor does registering a rule with nonnegative weights, whatever is registered already |
| `RuleMonotony.NegativeCapLowers` | crates/rules_engine/src/scoring.rs:8-12 | With a negative cap a trigger does lower the score below that of none |
| `Pipeline.ProcessTransaction` | crates/api/src/pipeline.rs:16-92 | Saves first, then reads the history from the table so changed, evaluates, and opens an alert exactly when a rule fired: about everyone and every asset the transaction involves, with the rules, score and severity found, open, and with the advisory or the reason there is none as AI state if that could be stored; neither an unavailable model nor a failed AI record changes the result |
| `Pipeline.SeverityIffTriggered` | crates/rules_engine/src/scoring.rs:7-23 | A severity is given exactly when a rule fired |
| `Pipeline.FreshTransactionSeesItself` | crates/api/src/pipeline.rs:17-28 | For a newly saved transaction no asset is unknown, the unusual-asset rule is silent, and the velocity count includes it plus one entry per movement |
| `Pipeline.HourlyCountIsLookbackCount` | crates/api/src/lib.rs:90 | With a lookback of at most an hour the hourly count sees the lookback only |
| `Ingestion.ProcessBatch` | crates/api/src/pipeline.rs:94-110 | Saves what can be saved and writes one dead letter per failure, in order, transactions before fetch failures; no failure stops the batch |
| `Ingestion.RunRound` | crates/api/src/pipeline.rs:119-133 | One round of the loop: nothing after a poll error; otherwise processes the batch, then stores its cursor and goes on from it whether or not it could be stored, or keeps the old one when the batch has none |
| `IngestionMachine.NoRecordIsSkipped` | crates/api/src/pipeline.rs:116-136 | Under any crashes, restarts, poll errors and failed writes, neither cursor passes a record that was not processed or handed to the dead-letter writer, if no poll without a cursor starts past the base |
| `IngestionMachine.SafeExactlyBehindBase` | crates/ingestion/src/horizon.rs:85-89 | When polls without a cursor, after the first, may start anywhere up to a bound: every run is safe exactly when that bound is at most the base |
| `IngestionMachine.LostCursorSkips` | crates/api/src/pipeline.rs:117 | A concrete run in which a source that seeds at the newest page skips records after its stored cursor could not be read |
| `IngestionMachine.UnstoredCursorSkips` | crates/ingestion/src/horizon.rs:86-89 | A concrete run without any failed read in which a crash before the first cursor was stored makes such a source skip what it had polled |
| `IngestionMachine.HandledIsAccountedFor` | crates/api/src/pipeline.rs:94-110 | In any run a handled record is in the transactions table, in a dead letter, or its dead letter could not be written |
| `IngestionOnce.CursorlessBatchSkipsIff` | crates/api/src/pipeline.rs:119-128 | A batch polled without a cursor leaves skipped records behind its cursor exactly when some record between the base and its start had not been handled |
| `IngestionOnce.SteadyRunHandlesOnce` | crates/api/src/pipeline.rs:116-136 | Without crashes and lost cursors the records up to the cursor are handled once each, in order when all normalise |
| `IngestionTable.ReplaysLeaveNoTrace` | crates/storage/src/tx_repo.rs:22-26 | In any run at all, whatever each fetch and save comes to: the table is the initial one plus what was saved, each feed record once however often replayed, transactions handed in by an administrator included; if ids are consistent, it is the table of saving in feed order without any replay |
| `IngestionTable.RowsStay` | crates/storage/src/tx_repo.rs:22-26 | Whatever the loop does, replays and restarts included, no row of the table is changed or removed |
| `IngestionTable.HandedInStays` | crates/api/src/routes/transactions.rs:45 | A transaction handed in is in the table from then on, unless its id was taken already |
| `IngestionTable.TableIsCrashFree` | crates/api/src/pipeline.rs:17-17 | If saves of the loop succeed and each record can be fetched either always or never: the table after any crashes and replays, of fresh and resumed deployments, is the initial one plus each record that normalises up to the highest reached, once, in order, but for ids also handed in; and it holds every such record a cursor has passed |
| `IngestionSources.MockPollIsMachinePoll` | crates/ingestion/src/mock.rs:32-43 | A poll of the mock source at any cursor of the loop is a poll step of the machine, or the index addition overflows |
| `IngestionSources.HorizonPollIsMachinePoll` | crates/ingestion/src/horizon.rs:92-113 | So is a Horizon poll: same transactions, same failures in order, cursor after the last record |
| `IngestionSources.BatchIsQueueRun` | crates/api/src/pipeline.rs:94-110 | The rows and dead letters of processing a batch are those of the machine's run through one queue, and every record of it is handled |
| `IngestionSources.RoundIsMachineRun` | crates/api/src/pipeline.rs:116-136 | A round of the loop is a run of the machine from the poll to storing the cursor: same rows, dead letters, cursor in use and stored cursor |
| `Ingestion.IngestionRepository.SetCursor` | crates/storage/src/ingestion_repo.rs:31-43 | Sets the cursor of one source, or on failure changes nothing |
| `Sources.MockPaging` | crates/ingestion/src/mock.rs:32-43 | Following cursors from none delivers the first k batches exactly after k polls, never errs or overflows, and from the end on yields empty batches with a stable cursor |
| `Sources.MockPollPanicsIff` | crates/ingestion/src/mock.rs:33-41 | A cursor makes the index addition overflow exactly when it is inside the list and start plus batch size exceeds 64 bits; for the printed text of a position that is a matter of the position; a poll fails exactly when the cursor does not parse |
| `Sources.MockTransactionSource.Poll` | crates/ingestion/src/mock.rs:32-43 | The method computes the poll the paging results are about |
| `Text.ParsePrintedUsize` | crates/ingestion/src/mock.rs:34-42 | Parsing a printed cursor gives the number back |
| `Text.ParseUsizeIff` | crates/ingestion/src/mock.rs:34 | The texts accepted as a number are its shortest decimal, perhaps after zeros, perhaps after one plus sign, if it fits 64 bits |
| `Text.UuidTextAt` | crates/audit/src/chain.rs:31 | Which digit of an id stands where in its text, and where the hyphens are |
| `Sources.GetJson` | crates/ingestion/src/horizon.rs:44-69 | Retries after server errors and missing answers only, and stops at any other answer or at the attempt limit, after at most max(1, max_retries) requests, with the result that answer calls for; k requests sleep 200 * (2^(k-1) - 1) ms; a delay overflows exactly at the 58th of more than 58 allowed attempts |
| `Sources.HorizonPoll` | crates/ingestion/src/horizon.rs:84-113 | The requests and the loop compute the poll that the next row is about |
| `Sources.HorizonPollDelivers` | crates/ingestion/src/horizon.rs:84-113 | Delivers exactly when the page can be fetched, unless a delay overflows: of the page's records, oldest first, those whose operations can be fetched and normalised with their transaction, the others as failures with their own hash and the error of that step, each list in order; the cursor is the paging token of the last record, or unchanged when there is none |
| `Sources.FetchSucceedsIff` | crates/ingestion/src/horizon.rs:44-69 | A fetch succeeds exactly when within its attempts a readable body follows nothing but server errors and missing answers |
| `Sources.NoOverflow` | crates/ingestion/src/horizon.rs:36-65 | With at most 58 attempts, so with the three Horizon makes, no delay overflows |
| `Sources.PollConservesRecords` | crates/ingestion/src/horizon.rs:98-111 | Every listed record lands in exactly one of the two lists, in listed order, with its own transaction or error |
| `HtmlEscape.EscapeIsSubstitution` | crates/api/src/html.rs:5-7 | The five sequential replacements equal one simultaneous substitution |
| `HtmlEscape.EntitiesAre` | crates/api/src/html.rs:6 | Which entity each of the five characters becomes, and that others stay |
| `HtmlEscape.AmpersandMustComeFirst` | crates/api/src/html.rs:6 | Replacing ampersands after another character would escape twice |
| `HtmlEscape.EscapedHasNoMarkup` | crates/api/src/html.rs:1-7 | No angle bracket or quote survives |
| `HtmlEscape.EscapeRoundTrip` | crates/api/src/html.rs:5-7 | Unescaping gives the text back |
| `HtmlEscape.EscapeInjective` | crates/api/src/html.rs:5-7 | Different texts have different escaped forms |
| `Sanitize.OutputIsClean` | crates/ai_advisor/src/validate.rs:43-55 | Output is within the cap, has no control characters but newline and tab, and no `<script` in any case |
| `Sanitize.SanitizeTextIs` | crates/ai_advisor/src/validate.rs:43-55 | The beginning, as far as the cap, of the text without control characters but newline and tab, and, when that contains `<script` in any case, without angle brackets |
| `Sanitize.CleanIffFixed` | crates/ai_advisor/src/validate.rs:43-55 | Clean text is exactly what sanitising leaves alone |
| `Sanitize.SanitizeIdempotent` | crates/ai_advisor/src/validate.rs:43-55 | Sanitising twice is sanitising once |
| `Sanitize.AcceptedAdvisoryIsClean` | crates/ai_advisor/src/validate.rs:62-79 | Rejected exactly when the summary is all white space; otherwise every field is clean, bounded, from the vocabulary or clamped |
| `Sanitize.FieldsAreOwn` | crates/ai_advisor/src/validate.rs:67-79 | Each field comes from the field of the same name: texts at 2000 characters, the first ten items of a list at 300, the confidence clamped, the level by its word |
| `Sanitize.RiskLevelIs` | crates/ai_advisor/src/validate.rs:67-68 | A level is stored as one of the four words exactly when the text is that word in any case with white space around it |
| `Sanitize.CleanAdvisoryStays` | crates/ai_advisor/src/validate.rs:62-79 | A clean advisory is stored field by field as it is |
| `Sanitize.AcceptedSummaryEmptyIff` | crates/ai_advisor/src/validate.rs:63-71 | An accepted summary is stored empty exactly when it consists of dropped control characters |
| `Sanitize.BellIsStoredEmpty` | crates/ai_advisor/src/validate.rs:63-71 | A summary of one bell character is accepted and stored empty |

## Left out

- SHA-256, serde_json and chrono internals: the hash is an arbitrary function; JSON text and RFC 3339 text are written out from their formats; leap seconds are not represented.
- Serialising an event to its JSON text, and rows to and from their text columns: taken as given, with the text as an argument.
- Alert creation and AI records interleaved with decisions: replay across all operations is stated for sequential runs, replay of interleaved runs for the decisions on an alert.
- Statements other than the audit insert that the database driver still executes after their caller was cancelled.
- The three statements behind one account history read one state of the table; a write between them is not modelled.
- Other processes writing the same database, and SQL engine internals.
- AlertService.AlertStore.Insert: models the primary key of the SQLite table; the in-memory store would overwrite an alert with the same random id instead.
- AlertService.AlertStore.RecordDecision: models the SQLite transaction; the in-memory store drops one lock before taking the other and does not check keys.
- AlertService.AlertStore.DecisionHistory: lists decisions in the order stored; the SQL query orders by a clock reading taken before the transaction.
- `AlertStore::list`, whose two implementations differ in offset and limit handling, and `list_all` of the SQLite store with a negative limit.
- Sources.GetJson: a delay that exceeds 64 bits is reported as its own outcome; an unchecked build would wrap around.
- Exactly-once alerts: a replayed transaction opens another alert with a fresh id.
- Which records Horizon's newest page holds: where a poll without a cursor starts is an argument of the poll.
- f64 rounding, NaN confidence, `Decimal` and `chrono::Duration` range limits: exact numbers are used.
- Reason and evidence texts of triggers, and the alert fields that only carry them.
- HTTP routing, authentication, dashboard pages, the model client and its prompt, and the Stellar command line.
