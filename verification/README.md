# AI Trade: a verified model

AI Trade is a trading research and simulation system.  This project models its deterministic cores
in Dafny and proves what they guarantee over all inputs, all runs and all reachable stores.

| files | what they model |
|---|---|
| `MonitoringConfig`, `WatchlistLaws`, `MonitoringRecords`, `ActionChains`, `MonitoringStore` | the monitoring evidence store: configuration chain and edits, records and their fingerprints, action chains, and the cross-record verification |
| `ScanTransaction` | the multi-file scan transaction and its recovery, one file operation per step, a crash between any two, and crashes that lose alert files |
| `MarketCalendar` | sessions between two days of a calendar that grows from scan to scan |
| `RuleEngine`, `SweepLaws`, `AlertSpacing` | one sweep of the edge-triggered rules with cooldown, what it owes every rule, and what it adds up to over the life of a store |
| `MarketData` | the market a scan normally sees, loaded from cache files |
| `MonitoringRuns` | all entry points as one step relation; the invariants of every run |
| `ProfileModel`, `MonitoringProfile` | the program itself: a class whose methods do one file operation after the other, any of which may fail or lose power; every method extends one run of `MonitoringRuns` |
| `OneRule` | stores with one rule, scanned by the engine: the inputs on which properties fail |
| `Execution`, `ExecutionLaws`, `OrderLaws`, `SaleCash`, `Portfolio` | the two-phase order executor on a mutable portfolio, and its laws |
| `Backtest`, `BacktestLaws`, `SessionLaws` | the daily risk state machine, for every market and every signal generator |
| `Periods`, `Costs`, `Security` | dated, non-overlapping periods; cost schedules; the security master |
| `ResearchDigest`, `DigestStore` | append-only digest chains with a preflight and prefix commits |
| `SecurityStore` | knowledge-time versions as a hash chain with point-in-time resolve |
| `Holm`, `Bootstrap` | Holm's correction and the circular block bootstrap |
| `Archive`, `ArchiveCalendar` | weeks and months projected from daily evidence, with truncation; the calendar in closed form |
| `Webhook`, `DeliveryOutcomes`, `MonitoredDelivery` | webhook attempts with crashes between sending and recording; what each reply makes of a delivery; the same beside a growing inbox |
| `Common` | options, sorted sets, sorting by a key |

`dafny verify dfyconfig.toml` checks everything.

## How the model reads the program

- Money and statistics are exact reals, quantities are integers, and the tolerance of `1e-8` in the buy
  phase is explicit.  Dates are day numbers, symbols are ranks in the order of their texts, timestamps are
  integers.
- A fingerprint is an injective constructor around what it is taken over; a derived id likewise; a random id
  is any id not in use.
- A directory is a map from file names to records.  Creating or unlinking a file is one step.  A create that
  reports failure has left nothing behind: the rollback at `src/ai_trade/monitoring.py:2072-2075` relies on it, and
  `MonitoringRuns.OrphanAlertBreaksIntegrity` shows what follows otherwise.  (The `finally` clause of
  `_atomic_create_json` can raise after the file was linked, so the assumption is one about the file system.)
  Every other operation may also take effect and then report failure.
- Owners are exclusive: file locks become mutual exclusion.
- The market and the signal generator are arbitrary functions.  The runs of the monitoring store are about
  snapshots whose calendar is a prefix of the full one and contains the data date, and whose cutoff is not
  before it: every market loaded from cache files gives such a snapshot (`MarketData.LoadedMarketsAreSeen`).
  What another market object can do is stated apart from the runs.
- Directory listings come in no particular order.  Where the program sorts them the model sorts; where the
  order cannot be observed (the rebalance band, the expiry of snoozes, the materialisation of notifications)
  it is left open.

## Where the code does something else than one might expect

- `scan_profile` never compares the completed cutoff with the data date.  A snapshot whose cutoff is earlier is
  written, and from then on verification fails: `RuleEngine.CommitIsIntactIffCutoffIsNotEarlier`, with the input
  in `OneRule.EarlyCutoffBreaksIntegrity`.  The same holds for the record of a failed scan
  (`RuleEngine.FailedCommitIsIntactIffCutoffIsNotEarlier`, `OneRule.EarlyCutoffOfFailureBreaksIntegrity`).  `MarketData` cannot deliver such a snapshot, because it drops every bar
  after the cutoff; only another object handed in as the market can.
- The cooldown falls back to calendar days for dates that are not on the calendar, and then gaps need not add up.
  The test looks at the newest alert alone; that is enough for all earlier ones exactly when the newest day
  "reaches back" (`OneRule.NewestTestIsExact`): it is on the calendar, or today is not, or no session within reach
  of today lies more than the cooldown before it.  Otherwise the engine can raise an alert that is too close to an
  older one in a store that still verifies (`OneRule.OffCalendarAlertBreaksSpacing`; two gaps of five days and a
  cooldown of two in `MarketCalendar.FiveAndFiveAreOne`).  The data date of `MarketData` is always a session, so
  this too takes another market object; on the calendar the spacing holds for every run.
- The expiry of snoozes comes before a scan evaluates anything.  For a profile with enabled rules and a snapshot,
  the scan is refused for it exactly when the action directory has no room for one action per snooze that is due
  at the snapshot's cutoff (`MonitoringProfile.Profile.ScanProfile`, `MonitoringProfile.Profile.ExpireSnoozes`); a
  scan without enabled rules or without a snapshot is not.  Once the directory is full while a snooze is due,
  this holds for every later day and the rest of the run (`ProfileModel.FullDirectoryStaysStuck`), and a run can
  come to that (`OneRule.SomeRunGetsStuck`).
- Not every reply to a webhook request can be recorded (`Webhook.RecordableReplies`): a status outside 100..599, an
  error text with a control character other than a line break, or an error body that breaks off leaves no attempt
  behind.  Such a delivery is sent again by every later call, whatever the limit on attempts
  (`Webhook.UnrecordableRepliesAreSentForever`), and because a batch stops at the first delivery that raises,
  everything behind it starves (`Webhook.OneReplyStarvesTheRest`).
- The limit on outbox records does not grow with the number of targets.  Delivery leaves an acceptable store while
  notifications times targets stay within it (`Webhook.FewTargetsStayAcceptable`); a second target is too much for
  any inbox more than half full (`Webhook.SecondTargetOverflows`).
- The store of security versions cannot notice the loss of its newest files: every prefix of a chain loads
  (`SecurityStore.LoadsExactlyThePrefixes`).
- A query of the research archive that filters by a date, or shows weeks and months from a filter for the other
  kind of period, cuts periods it shows.  Every period shown is whole, over all evidence, exactly for a query
  without a filter, one that filters for the grouping itself, and weeks of a month that starts on a Monday and
  ends on a Sunday (`Archive.WholeExactly`).
- Selling can lower cash: a sale does so exactly when commission, stamp duty and transfer fee together exceed its
  notional (`SaleCash.OneSale`).  No account that is not overdrawn is ever sold into the red if and only if the
  schedule has no minimum commission and rates that add up to at most 10000 basis points (or a slippage that
  leaves no positive notional): `SaleCash.SellPhaseIsSafeExactly`, with the overdrawing call in
  `SaleCash.UncoveredSaleOverdraws`.  The configuration only asks for rates that are not negative.
- After its loop the backtest generates one more signal, for display, even during a cooldown.  It is the pending
  order when the last session signalled, and otherwise nothing of it is pending
  (`BacktestLaws.LatestSignalIsForDisplay`).
- Sorting a cost history compares ends when starts are equal, and an open end with a date is a type error instead
  of a refusal.  A type of instrument cannot be sorted exactly when two of its rows share a start and one of them
  has an end (`Costs.UnsortableExactly`); types are looked at in the order of their first rows, so an overlap of
  an earlier type is reported first (`Costs.ValidateCosts`).
- An error from publishing a security version need not mean that nothing was published; offering the same version
  again is safe either way (`SecurityStore.OfferingAgainIsSafe`).

## Model

| member | source | states |
|---|---|---|
| MonitoringRuns.EveryRunKeepsInv | src/ai_trade/monitoring.py:950-1074 | every store that any interleaving of configuration edits, scans, failed scans, actions, materialised notifications, crashes, lost files and recoveries can reach is intact and keeps the alert laws, or is in flight over such a store |
| MonitoringRuns.EveryRunIsIntact | src/ai_trade/monitoring.py:950-1074 | between transactions every check on the local records passes (configurations, scans, alerts, actions, notifications), the scan sequences are exactly 1..n, and the notification limit (alerts plus scans) cannot be exceeded |
| MonitoredDelivery.EveryWorldIsVerified | src/ai_trade/monitoring.py:950-1080 | with webhook deliveries interleaved at any point of a run, while the inbox grows: the local checks pass, the delivery records pass exactly when their two directories are within their limits, and for a single target they always pass |
| MonitoringRuns.EveryCrashIsRecoverable | src/ai_trade/monitoring.py:1579-1706 | whatever a crash leaves behind passes every check recovery makes before it touches a file, and no notification points at an alert of the open transaction |
| MonitoringRuns.RecordsAreNeverLost | src/ai_trade/monitoring.py:1539-1706 | evidence is append-only over whole runs: what is on record while no transaction is open stays on record, unchanged, through every later scan, crash and recovery |
| MonitoringRuns.AlertsOfEveryRunAreFarApart | src/ai_trade/monitoring.py:1986-2009 | any two alerts of one rule id and fingerprint lie more than the rule's cooldown apart in sessions of the calendar, and the alert of the later scan has the later date, in every reachable store |
| MonitoringRuns.EveryRunRearmsBetweenAlerts | src/ai_trade/monitoring.py:1252-1262 | between two alerts of a rule the newest scan that recorded the rule, not failed and strictly between, found it untriggered or under another fingerprint: failed scans and exclusions never re-arm |
| MonitoringRuns.OrphanAlertBreaksIntegrity | src/ai_trade/monitoring.py:2071-2075 | why the rollback needs a failed create to leave nothing behind: one surviving alert file makes every later verification fail |
| MonitoringRuns.StepKeepsInv | src/ai_trade/monitoring.py:1886-2113 | each single file operation, of any entry point, keeps the invariant |
| MonitoringRuns.TxStepOver | src/ai_trade/monitoring.py:1539-1706 | one step of an open transaction leaves it open over the same base, or ends in exactly the base or the base plus the scan and all its alerts |
| ScanTransaction.ScanIsCrashAtomic | src/ai_trade/monitoring.py:1539-1706 | for every history of writes, crashes, lost alert files and interrupted recoveries: once the marker is gone the store is the old one, or the old one plus the scan and all its alerts (and then there was room), and it is intact |
| ScanTransaction.InFlightIsRecoverable | src/ai_trade/monitoring.py:1597-1677 | recovery never refuses a store that an interrupted scan left behind |
| ScanTransaction.RecoveryMakesProgress | src/ai_trade/monitoring.py:1614-1699 | while the marker exists recovery has a next step, and every step leaves fewer files, so recovery ends |
| ScanTransaction.NothingPointsIntoTheTransaction | src/ai_trade/monitoring.py:1701-1706 | no action and no notification points at a record of the open transaction |
| ScanTransaction.AllPresentHasRoom | src/ai_trade/monitoring.py:1499-1503 | the per-file limit checks add up: a scan file is only written when the whole transaction fits |
| MonitoringStore.CommitKeepsIntegrity | src/ai_trade/monitoring.py:967-1060 | adding a well-bound scan with all of its alerts keeps every cross-record check |
| MonitoringStore.ConfigKeepsIntegrity | src/ai_trade/monitoring.py:976-1010 | a new configuration revision leaves the bindings of all earlier scans and alerts valid |
| MonitoringStore.AlertActionKeepsIntegrity | src/ai_trade/monitoring.py:1016-1024 | the next lawful action keeps every chain of every alert valid |
| MonitoringStore.NoteActionKeepsIntegrity | src/ai_trade/monitoring.py:1061-1074 | the next lawful action on a notification keeps every chain of every notification valid |
| MonitoringStore.NotificationKeepsIntegrity | src/ai_trade/monitoring.py:1025-1060 | materialising one missing notification keeps every notification equal to the projection of its source |
| MonitoringStore.NotificationCapIsNeverHit | src/ai_trade/monitoring.py:905-907 | on an intact store existing plus missing notifications never exceed the limit, so that refusal is dead code; together they are exactly one per alert and per failed scan |
| MonitoringStore.BoundIsExpected | src/ai_trade/monitoring.py:1038-1060 | a notification passes verification exactly when it is the one the materialiser would create |
| MonitoringStore.InboxShowsEverything | src/ai_trade/monitoring.py:2409-2458 | a complete inbox shows each alert with its severity, symbol, day and evidence, each failed scan as critical with its error, and nothing else |
| MonitoringStore.NumbersAreContiguous | src/ai_trade/monitoring.py:967-973 | distinct numbers in 1..n are all of 1..n, so the newest scan carries n |
| MonitoringStore.OneOwner | src/ai_trade/monitoring.py:996-1015 | an alert is referenced by exactly the scan it names |
| ActionChains.ChainIsUnique | src/ai_trade/monitoring.py:2389-2402 | the files of one subject have one possible order |
| ActionChains.AppendExtends | src/ai_trade/monitoring.py:1160-1206 | an action that continues the chain extends it by exactly itself |
| ActionChains.AppendLeavesOthers | src/ai_trade/monitoring.py:1141-1144 | and leaves the chain of every other subject alone |
| ActionChains.StaleStateNeverMatches | src/ai_trade/monitoring.py:2378-2386 | a state fingerprint read before an action of its subject differs from every later one, even when the status returns |
| ActionChains.LawfulMoves | src/ai_trade/monitoring.py:69-85 | lawful actions make exactly the moves of two small graphs of statuses; a move determines its verb, a discarded notification stays discarded, and only a snooze carries a date |
| ActionChains.EveryMoveIsLawful | src/ai_trade/monitoring.py:69-85 | and every edge of the graphs has its verb |
| RuleEngine.SweepHasFacts | src/ai_trade/monitoring.py:1967-2009 | no alert too many: every alert of a sweep belongs to an enabled rule that fired, repeats the state recorded for it, and is the only one of its rule |
| SweepLaws.SweepAccounts | src/ai_trade/monitoring.py:1966-2010 | and none too few: states, alerts, suppressions and exclusions are exactly what the rules up to the first evaluation that raises contribute, each once and in rule order; the sweep aborts exactly when one raises |
| SweepLaws.VerdictExactly | src/ai_trade/monitoring.py:1970-2006 | on every sound store, from the records alone: a rule fires if and only if its condition is looked at and holds, no scan has it on record as still true, and no alert of it at all, not only the newest, lies within its cooldown; the suppressions and exclusions likewise |
| SweepLaws.FinishedScanHearsEveryRule | src/ai_trade/monitoring.py:1966-2075 | a scan that does not fail leaves on disk, for every enabled rule, its alert, or the reason on record why there is none |
| SweepLaws.FailedScanTells | src/ai_trade/monitoring.py:2011-2033 | a scan that failed because an evaluation raised keeps the states, suppressions and exclusions of the rules before it and the message of that first one, and raises no alert |
| RuleEngine.EngineTxIsBound | src/ai_trade/monitoring.py:2030-2070 | the scan and the alerts the engine hands to the writer satisfy every binding that verification will check, provided the cutoff is not before the data date |
| RuleEngine.CommitIsIntactIffCutoffIsNotEarlier | src/ai_trade/monitoring.py:2516-2519 | the missing guard, exactly: after the engine's commit the store is intact if and only if the completed cutoff is not before the data date, which the writer never checks |
| RuleEngine.FailedTxIsOk | src/ai_trade/monitoring.py:2119-2178 | a failed scan without a snapshot, or with one whose cutoff is not before its data date, is well bound, whatever states were collected |
| RuleEngine.FailedCommitIsIntactIffCutoffIsNotEarlier | src/ai_trade/monitoring.py:2119-2178 | the missing guard for failed scans: after the record is written the store is intact if and only if there was no snapshot or its cutoff is not before its data date |
| AlertSpacing.NotCoolingMeansFar | src/ai_trade/monitoring.py:1991-2005 | comparing with the newest alert only is enough: all earlier alerts of the rule are far enough away too |
| MarketCalendar.PrefixKeepsDistance | src/ai_trade/monitoring.py:2806-2816 | a scan that sees the calendar only up to its own day measures the same distances |
| AlertSpacing.CommitKeepsSpacing | src/ai_trade/monitoring.py:1991-2009 | a commit whose alerts were justified keeps the spacing of the whole store |
| AlertSpacing.CommitKeepsRearmed | src/ai_trade/monitoring.py:1986-1990 | and keeps every alert's rule re-armed before it |
| AlertSpacing.AlertsAreFarApart | src/ai_trade/monitoring.py:2806-2816 | the spacing invariant means strictly increasing dates and more than cooldown sessions between any two alerts |
| AlertSpacing.RuleWasRearmedBetween | src/ai_trade/monitoring.py:1252-1262 | the re-arming invariant yields the scan between two alerts |
| AlertSpacing.NewestAlertIsEnough | src/ai_trade/monitoring.py:1991-2005 | the same without assuming that alert days are sessions: the newest alert decides for all earlier ones whenever its day reaches back |
| MarketCalendar.GapsAddUpExactly | src/ai_trade/monitoring.py:2806-2816 | for one newest day and today: far from the newest means far from every earlier day exactly when the newest day reaches back |
| MarketCalendar.SessionsSinceCounts | src/ai_trade/monitoring.py:2806-2816 | between sessions the distance is the number of sessions after the first up to the second; otherwise it counts calendar days |
| OneRule.NewestTestIsExact | src/ai_trade/monitoring.py:1991-2005 | the cooldown test, exactly: over all intact stores with spaced alerts, all rules of a cooldown, and a newest alert on the given day, it bounds the distance to all earlier alerts if and only if that day reaches back |
| OneRule.OffCalendarAlertBreaksSpacing | src/ai_trade/monitoring.py:2806-2816 | for every calendar, cooldown and pair of days that does not reach back: an intact store with spaced alerts in which the engine raises an alert that passes its test and leaves two alerts within the cooldown |
| OneRule.EarlyCutoffBreaksIntegrity | src/ai_trade/monitoring.py:2516-2519 | for every data date and earlier cutoff: an intact store in which such a scan is written and verification fails afterwards |
| OneRule.EarlyCutoffOfFailureBreaksIntegrity | src/ai_trade/monitoring.py:2119-2178 | the same for a scan that fails |
| MarketData.Load | src/ai_trade/data/market.py:40-82 | a market is loaded exactly when every instrument has completed bars and the active ones share a session; its data date is the last one they share |
| MarketData.LoadedMarketsAreSeen | src/ai_trade/data/market.py:51-82 | every snapshot of a loaded market has a calendar that begins the full one, a data date on it, and a cutoff that is not before the data date |
| MonitoringProfile.Profile.Recover | src/ai_trade/monitoring.py:1579-1706 | recovery completes the scan when all its alerts are there and otherwise removes exactly the transaction's files; what it leaves is sound |
| MonitoringProfile.Profile.LoseFiles | src/ai_trade/monitoring.py:1630-1657 | a power loss that takes any alert files of the open transaction with it leaves a state of a run |
| MonitoringProfile.Profile.LatestStates | src/ai_trade/monitoring.py:1252-1262 | from the newest scan down, keeping the first state seen decides exactly whether a rule was last recorded as true |
| MonitoringProfile.Profile.LastAlert | src/ai_trade/monitoring.py:1458-1477 | the newest alert of a rule and fingerprint, or none when there is none |
| MonitoringProfile.Profile.Judge | src/ai_trade/monitoring.py:1968-2009 | the verdict on one rule is the one the edge trigger and the cooldown prescribe over the whole recorded history |
| MonitoringProfile.Profile.Evaluate | src/ai_trade/monitoring.py:1966-2010 | the loop collects exactly the sweep of the enabled rules, up to the first evaluation that raises; rule by rule nothing is dropped, doubled or reordered |
| MonitoringProfile.Profile.WriteAlerts | src/ai_trade/monitoring.py:2066-2070 | alert files are created in order within the limit; after a failure nothing beyond the reported ones is there |
| MonitoringProfile.Profile.RollBack | src/ai_trade/monitoring.py:2072-2075 | the rollback ends in exactly the store before the transaction |
| MonitoringProfile.Profile.WriteScan | src/ai_trade/monitoring.py:2104-2113 | a scan file that cannot be written leaves the old store |
| MonitoringProfile.Profile.CommitScan | src/ai_trade/monitoring.py:2061-2113 | how writing a scan can end and what each ending leaves behind; without faults and with room it ends in the whole commit |
| MonitoringProfile.Profile.ScanProfile | src/ai_trade/monitoring.py:1886-2117 | nothing to do, reuse, a recorded scan, a refusal for capacity or an interruption: the store after each, given the store after recovery and expiry; without faults a refusal means a full scan directory, or enabled rules, a snapshot and an expiry without room, and that always refuses; a scan that did not fail has heard every enabled rule, and without faults none fails while no evaluation raises and there is room; a scan is reused only if it evaluated every rule on this snapshot and configuration, and evaluated again only if none did |
| MonitoringProfile.Profile.ScanSnapshot | src/ai_trade/monitoring.py:1966-2113 | from the sweep to the files: what is recorded has heard every enabled rule, and without faults it is not a failure while no evaluation raises and there is room; when one raises, the failed scan tells what was seen before it |
| MonitoringProfile.Profile.FindSucceeded | src/ai_trade/monitoring.py:1436-1450 | the newest succeeded scan of a snapshot and configuration, or none exactly when there is none |
| MonitoringProfile.Profile.ChooseScanId | src/ai_trade/monitoring.py:1948-1956 | the derived id unless it is taken, and never one in use |
| MonitoringProfile.Profile.AlertAction | src/ai_trade/monitoring.py:1114-1213 | an action is written exactly when no reason to refuse it applies, reasons in the order they are looked for; a written one is the next of its chain and the only change |
| MonitoringProfile.Profile.ExpireSnoozes | src/ai_trade/monitoring.py:1215-1239 | exactly one unsnooze for each alert that was due, no other alert touched; without faults it completes if and only if the action directory has room for all of them |
| MonitoringProfile.Profile.Materialize | src/ai_trade/monitoring.py:890-921 | afterwards the inbox holds exactly one projection per alert and per failed scan |
| MonitoringProfile.Profile.MutateWatchlist | src/ai_trade/monitoring.py:511-573 | an accepted edit appends exactly its revision; the list it names changes as asked, with exactly the rules that go with it, and nothing else does; it is invalid only for a bad name, never because a rule lost its watchlist or symbol |
| WatchlistLaws.EditDoesAsAsked | src/ai_trade/monitoring.py:511-575 | after an accepted edit the named list has the new name, the new switch, the symbol more or less, or is gone; removed are exactly the rules of a deleted list or of a removed symbol; every other list and rule is as it was |
| WatchlistLaws.WrittenExactly | src/ai_trade/monitoring.py:1338-1356 | of lists and rules that are proper by themselves a revision is written if and only if at most 2000 symbols are watched in all, counted as pairs of list and symbol, and fewer than 1000 revisions exist |
| WatchlistLaws.WrittenIsSorted | src/ai_trade/monitoring.py:2608-2654 | what is written is in order: watchlists by name without regard to case, rules by watchlist and symbol, ids between equals |
| WatchlistLaws.ListsAreAcceptedExactly | src/ai_trade/monitoring.py:2608-2635 | lists are accepted if and only if there are at most fifty, as many ids as lists, each with a proper name and at most 500 symbols |
| WatchlistLaws.RuleIsAcceptedExactly | src/ai_trade/monitoring.py:2657-2727 | which rules are accepted, type by type, and with which defaults and operator they come back |
| ProfileModel.RecoveredIsOldOrNew | src/ai_trade/monitoring.py:1614-1699 | what recovery computes from the files alone is the old store or the whole new one |
| ProfileModel.StaleWriteIsRefused | src/ai_trade/monitoring.py:1145-1159 | compare and swap over whole runs: a write that presents a state read before anybody else's action is refused |
| ProfileModel.StaleNoteWriteIsRefused | src/ai_trade/monitoring.py:816-840 | the same for the inbox: an action that presents an outdated state of a notification is refused |
| ProfileModel.AllowedExactly | src/ai_trade/monitoring.py:1114-1206 | the ordered reasons to refuse an alert action together leave exactly this: a known alert, room, a verb its status allows, the presented state if any being the current one, and a snooze until today or later |
| ProfileModel.NoteAllowedExactly | src/ai_trade/monitoring.py:779-860 | the same for actions on notifications |
| MonitoringProfile.Profile.NotificationAction | src/ai_trade/monitoring.py:779-888 | in a completed inbox an action is written exactly when no reason to refuse it applies; a written one is the next of its chain and the only change |
| ProfileModel.FullDirectoryStaysStuck | src/ai_trade/monitoring.py:1215-1239 | once the action directory is full while a snooze is due, no expiry of any later day has room for the rest of the run |
| OneRule.SomeRunGetsStuck | src/ai_trade/monitoring.py:1114-1239 | a run of configuration, one scan and lawful actions that ends with a full directory, a due snooze and an enabled rule |
| ProfileModel.OnlyCapacityRefuses | src/ai_trade/monitoring.py:1225-1238 | the expiry never conflicts with itself |
| ProfileModel.NoneLeftDue | src/ai_trade/monitoring.py:1215-1239 | after a completed expiry no snooze is due |
| ProfileModel.ExpiryIsByDate | src/ai_trade/monitoring.py:1215-1239 | a completed expiry on a day ends exactly the snoozes until that day or earlier; what is still snoozed is so until a later day |
| MonitoringConfig.WatchlistNormalizationIsIdempotent | src/ai_trade/monitoring.py:2608-2636 | normalising watchlists twice is normalising them once |
| MonitoringConfig.RuleNormalizationIsIdempotent | src/ai_trade/monitoring.py:2657-2734 | normalising a rule twice is normalising it once, and it keeps its identity |
| MonitoringConfig.RulesNormalizationIsIdempotent | src/ai_trade/monitoring.py:2638-2654 | normalising a list of rules twice is normalising it once |
| MonitoringConfig.WrittenIsAcceptedOnRead | src/ai_trade/monitoring.py:1338-1375 | every revision that is written is accepted when the chain is read back, with contiguous numbers and the right parent |
| MonitoringConfig.ReadIsCanonical | src/ai_trade/monitoring.py:1283-1336 | what is read is in canonical form |
| MonitoringConfig.EditsCascade | src/ai_trade/monitoring.py:530-567 | deleting a watchlist, removing a symbol or any other edit of a valid configuration always re-validates: the cascade keeps every rule inside its watchlist |
| MonitoringConfig.KeptRulesAreRules | src/ai_trade/monitoring.py:539-558 | the cascade keeps exactly the rules the edit does not concern |
| PortfolioModule.PortfolioValue | src/ai_trade/execution.py:18-30 | cash plus every position at its mark, in whatever order the positions are visited |
| PortfolioModule.Portfolio.PlanLots | src/ai_trade/execution.py:46-56 | one whole-lot quantity per positive weight with a valid opening bar, and a rejection for each that has none; what the quantity is is stated by `OrderLaws.PlanExactly` |
| PortfolioModule.Portfolio.ApplyBand | src/ai_trade/execution.py:58-66 | exactly the positions inside the rebalance band keep their quantity, in whatever order they are visited |
| PortfolioModule.Portfolio.ExecuteTargetWeights | src/ai_trade/execution.py:33-176 | the in-place executor computes the two-phase specification on account, trades and rejections, which `OrderLaws` and `ExecutionLaws` describe |
| OrderLaws.WorthIsCashPlusMarks | src/ai_trade/execution.py:18-30 | the portfolio is worth its cash plus each quantity at today's bar or else the latest one before, one position at a time |
| OrderLaws.PlanExactly | src/ai_trade/execution.py:44-66 | symbol by symbol: a position inside the band keeps its quantity; any other weight with a valid opening bar gets the largest number of whole lots its share of the equity at the open can pay for; nothing else is planned |
| OrderLaws.WeightsAreReached | src/ai_trade/execution.py:44-176 | the positions after any call that was not blocked: sold out without a weight, unchanged inside the band, otherwise worth at most their share, and trimmed to the largest whole lots within it when they were worth more |
| OrderLaws.RestrictionExactly | src/ai_trade/execution.py:192-229 | an order is refused exactly for a status that forbids trading, no executable volume, or an opening price within half a tick of the limit in force, rounded half up to the tick; the dated status decides which limit |
| OrderLaws.EveryTradeIsAllowed | src/ai_trade/execution.py:83-176 | no call trades a suspended symbol, buys at the upper limit or sells at the lower one |
| OrderLaws.TradesAreInOrder | src/ai_trade/execution.py:72-141 | sales by ascending symbol, then purchases by descending weight, equal weights in the order given, each symbol at most once |
| OrderLaws.ByWeightIsHeaviestFirst | src/ai_trade/execution.py:129-141 | the stable sort behind it: a permutation, heaviest first |
| OrderLaws.EveryOrderIsAnswered | src/ai_trade/execution.py:47-128 | nothing wanted is dropped in silence: weights without a valid opening price, positions that stay above their target, and every purchase a blocked sale prevents are on the list of refusals; exactly a position left above its target blocks purchases |
| PortfolioModule.ShrinkToFit | src/ai_trade/execution.py:147-154 | the shrinking loop stops where its specification stops |
| ExecutionLaws.ExecuteConserves | src/ai_trade/execution.py:33-176 | marked at the open, the portfolio loses exactly the total cost of the returned trades, and positions stay positive |
| ExecutionLaws.ExecuteReplays | src/ai_trade/execution.py:89-175 | folding the returned trades over the account before the call gives the account after it |
| ExecutionLaws.SellsPrecedeBuys | src/ai_trade/execution.py:72-127 | sales come first, and when a needed sale is blocked nothing is bought |
| ExecutionLaws.SellPhaseReachesTargets | src/ai_trade/execution.py:72-112 | unless a sale is blocked every position ends the sell phase at the smaller of itself and its target |
| ExecutionLaws.ShrinkIsLargestFill | src/ai_trade/execution.py:147-156 | the fill is the largest of desired, desired minus a lot, ... of at least one lot that fits, and none only if none fits |
| ExecutionLaws.BuyOneIsMaximal | src/ai_trade/execution.py:130-175 | each purchase is the largest that fits the cash at that moment, at the slipped price, and pays exactly its outlay |
| ExecutionLaws.BuyPhaseCashFloor | src/ai_trade/execution.py:127-160 | after all purchases cash is at least the smaller of the cash after sales and minus the tolerance, however many symbols were bought |
| SaleCash.OneSale | src/ai_trade/execution.py:72-112 | an executed sale lowers cash exactly when its fees exceed its notional, and touches no other position |
| SaleCash.CashNeverFallsExactly | src/ai_trade/execution.py:70-112 | cash never falls during a sell phase exactly when every sale in it covers its fees |
| SaleCash.CoveredCallCashFloor | src/ai_trade/execution.py:33-176 | when every sale of a call covers its fees, selling does not lower cash and the whole call keeps it above the smaller of the cash before and minus the tolerance |
| SaleCash.CoversByRates | src/ai_trade/execution.py:90-96 | when a sale of a given notional covers its fees, in terms of the rates and the minimum commission |
| SaleCash.AlwaysCoversExactly | src/ai_trade/execution.py:90-96 | the schedules under which every sale at every price covers its fees |
| SaleCash.SafeCall | src/ai_trade/execution.py:33-176 | with such schedules no call lowers cash by selling or ends below minus the tolerance |
| SaleCash.UncoveredSaleOverdraws | src/ai_trade/execution.py:72-97 | for every schedule and price at which one share is not worth its fees: a call that overdraws an account without debts |
| SaleCash.SellPhaseIsSafeExactly | src/ai_trade/execution.py:33-112 | over all markets, accounts and targets, the sell phase leaves no account overdrawn that was not, if and only if the schedule is one of those |
| ExecutionLaws.ExecuteKeepsLots | src/ai_trade/execution.py:54-56 | strictly positive whole lots in, strictly positive whole lots out |
| ExecutionLaws.NoTargetsNoBuys | src/ai_trade/execution.py:127-133 | an empty target set only ever sells |
| Backtest.Run | src/ai_trade/backtest.py:46-137 | the loop over a mutable portfolio computes the fold of the daily step and the signal after it, or refuses the same inputs; when the step stops, cools down, signals or idles is stated by `SessionLaws` |
| BacktestLaws.TradesReplayTheRun | src/ai_trade/backtest.py:82-96 | folding the trade list from the initial cash reproduces cash and positions after any session |
| BacktestLaws.EquityIsAttributed | src/ai_trade/backtest.py:82-103 | equity is initial cash plus the gains on held quantities, overnight and intraday, minus every transaction cost |
| BacktestLaws.SessionTradesComeFromYesterday | src/ai_trade/backtest.py:82-96 | the trades of a session execute the targets set the session before, once |
| BacktestLaws.EveryTradeHasItsSession | src/ai_trade/backtest.py:82-96 | every trade of the list was made on a session, from the targets of the session before |
| BacktestLaws.MadeOnce | src/ai_trade/backtest.py:82-96 | and on no other session |
| BacktestLaws.EachOrderIsExecutedOnce | src/ai_trade/backtest.py:78-123 | no target set is executed twice and none is skipped: at the open every session executes exactly the order of the session before, and nothing when that set none |
| BacktestLaws.LatestSignalIsForDisplay | src/ai_trade/backtest.py:105-137 | the signal after the loop is the pending order when the last session signalled; otherwise the pending order is the empty target set or none |
| BacktestLaws.RiskStopIsSafe | src/ai_trade/backtest.py:105-123 | after a stop with cooldown c no signal in the next c sessions and no purchase in the next c + 1, re-triggers included |
| BacktestLaws.CooldownInRange | src/ai_trade/backtest.py:109-123 | the cooldown stays between zero and its configured length |
| BacktestLaws.HighWaterIsTheMaximum | src/ai_trade/backtest.py:99-123 | the high-water mark is the maximum equity since the start or the last end of a cooldown |
| SessionLaws.StopsExactly | src/ai_trade/backtest.py:98-114 | over every run: a session stops if and only if something is held after its open and its closing equity has fallen by the drawdown limit from the mark, today included, or by the daily limit from the session before |
| SessionLaws.HighWaterIsMark | src/ai_trade/backtest.py:99-123 | the mark is the largest equity since the last restart, and before any restart the initial cash counts too |
| SessionLaws.ResetExactly | src/ai_trade/backtest.py:116-123 | the mark restarts exactly `cooldown_days` sessions after a stop that no other stop followed |
| SessionLaws.CountdownExactly | src/ai_trade/backtest.py:105-123 | the countdown is what is left of the time since the newest stop |
| SessionLaws.SignalsExactly | src/ai_trade/backtest.py:116-137 | a session signals if and only if it does not stop, no stop lies within the countdown, and its day changes the settings or every earlier signal is `rebalance_days` or more sessions back, by the settings in force |
| SessionLaws.OrdersExactly | src/ai_trade/backtest.py:105-137 | what a session leaves for the next open, by what it decided, with the settings in force |
| SessionLaws.CurveExactly | src/ai_trade/backtest.py:98-103 | one point per session: its day, closing equity, cash, and the fall from the mark |
| Periods.NonOverlapping | src/ai_trade/security.py:363-371 | grouping, sorting and comparing neighbours accepts exactly the lists in which no date of a key is covered twice |
| Periods.AdjacentIsGlobal | src/ai_trade/security.py:363-371 | on a sorted list the neighbour test accepts exactly the globally disjoint lists |
| Periods.LastApplyingIgnoresOrder | src/ai_trade/security.py:173-188 | without overlaps the matching row does not depend on the list order |
| Costs.ForInstrument | src/ai_trade/models.py:80-103 | the loop over the history computes the dated lookup |
| Costs.ValidateCosts | src/ai_trade/config.py:703-752 | a configuration is accepted exactly when all rates are non-negative, all rows well formed and no date of a type is covered twice; a refusal names the first bad row, or the first type with an overlap, as a type error when that type cannot be sorted |
| Costs.SortPeriods | src/ai_trade/config.py:748 | sorting the periods of a type raises exactly when two of them share a start and one of them has an end; otherwise it sorts |
| Costs.UnsortableExactly | src/ai_trade/config.py:747-748 | the same in terms of the rows of the history |
| Costs.OneRowVerdict | src/ai_trade/config.py:734-746 | the first bad row admits one verdict |
| Costs.OneTypeVerdict | src/ai_trade/config.py:747-752 | and so does the first type with an overlap |
| Costs.LookupIgnoresRowOrder | src/ai_trade/models.py:87-103 | the schedule of an accepted configuration does not depend on the order of its history |
| Costs.LookupCommutesWithScaling | src/ai_trade/models.py:105-126 | scaling then looking up is looking up then scaling every field, and scaling keeps a configuration valid |
| Costs.LookupLayerByLayer | src/ai_trade/models.py:80-103 | each of the five values comes from the dated row covering the day, else from the override of the type, else from the base |
| Costs.NoRateIsNegative | src/ai_trade/config.py:703-746 | the values of a configuration are valid if and only if no rate set anywhere is negative, zero allowed, and then no rate looked up is |
| Security.Validate | src/ai_trade/security.py:279-308 | a master is accepted exactly when memberships and statuses are well formed and cover each date of a symbol at most once |
| Security.StatusIgnoresListOrder | src/ai_trade/security.py:173-188 | the trading status of an accepted master does not depend on the order of its periods |
| Security.StatusIsTheOnePeriod | src/ai_trade/security.py:173-188 | the status of a day is that of the one period covering it |
| Security.StatusExactly | src/ai_trade/security.py:173-188 | the whole status: what the one covering period says, with its price limit or else the instrument's; a day without a period is normal and tradable |
| Security.NoReasonsMeansEligible | src/ai_trade/security.py:143-171 | there is no reason against a symbol exactly when it is listed, a member and seasoned |
| Security.ReasonsExactly | src/ai_trade/security.py:143-171 | each reason is given exactly when it holds; an unknown symbol has that one alone |
| Security.ActiveSymbols | src/ai_trade/security.py:125-141 | exactly the eligible members, each once |
| DigestLedger.VerifyAccount | src/ai_trade/research_digest.py:583-710 | verification returns the chains exactly when the files are those of gap-free, parent-linked chains with unique ids and one configuration, within the limits |
| DigestLedger.LoadChain | src/ai_trade/research_digest.py:671-690 | the revisions of one period up to the first gap |
| DigestLedger.CheckChain | src/ai_trade/research_digest.py:686-708 | a chain is accepted exactly when each record is in its place and continues the one before it |
| DigestLedger.CheckAccount | src/ai_trade/research_digest.py:606-646 | the checks across chains accept exactly the accounts with unique ids and one configuration |
| DigestLedger.DigestStore.Verify | src/ai_trade/research_digest.py:528-536 | a store that only batches have written always verifies |
| DigestLedger.DigestStore.Preflight | src/ai_trade/research_digest.py:296-371 | the ordered preflight accepts exactly the batches that meet an order-free condition, and plans every draft against the original chains: with the newest revision when that says the same, with a new one otherwise |
| DigestLedger.DigestStore.AppendMany | src/ai_trade/research_digest.py:282-441 | a refused batch writes nothing; after a complete one each draft is the newest of its period, as one more revision exactly when the newest said something else, and no other period is touched; a stopped one leaves exactly that for the reported prefix; every reachable store verifies and neighbouring revisions differ |
| ResearchDigest.PrefixIsOk | src/ai_trade/research_digest.py:373-441 | every prefix of an accepted batch leaves an account that verifies and whose adjacent revisions differ in content |
| ResearchDigest.PrefixLands | src/ai_trade/research_digest.py:344-441 | however far a batch got, its first drafts are the newest of their periods, nothing of the history was lost, and no other period was touched |
| ResearchDigest.AcceptedExactly | src/ai_trade/research_digest.py:314-371 | a well-formed batch is accepted if and only if the account it would leave verifies: the configuration and capacity checks are neither too strict nor too lax |
| ResearchDigest.WellFormedExactly | src/ai_trade/research_digest.py:282-312 | a batch is well formed if and only if it has 1 to 104 drafts, weeks starting on Mondays, as many periods as drafts, and one configuration |
| ResearchDigest.SamePlan | src/ai_trade/research_digest.py:333-371 | planning against the growing chains is planning against the original ones |
| ResearchDigest.RerunIsAccepted | src/ai_trade/research_digest.py:314-371 | a batch that stopped half-way passes the preflight again |
| ResearchDigest.RerunConverges | src/ai_trade/research_digest.py:333-441 | however far the first attempt got, rerunning leaves the same content sequence in every chain as an uninterrupted run |
| ResearchDigest.ThirdRunChangesNothing | src/ai_trade/research_digest.py:344-350 | once complete, a further run reuses every record and changes nothing |
| ResearchDigest.RepresentsOnce | src/ai_trade/research_digest.py:653-710 | the files determine the chains |
| SecurityStore.LoadChain | src/ai_trade/security_store.py:188-228 | the files load exactly when they are those of one strictly ordered, linked chain (or there are none and that is allowed), in publication order |
| SecurityStore.LoadsExactlyThePrefixes | src/ai_trade/security_store.py:188-228 | any subset of a chain's files, in any directory order, loads if and only if it is a prefix, and then rebuilds the publication order |
| SecurityStore.LoadsOnce | src/ai_trade/security_store.py:188-228 | the files determine the chain |
| SecurityStore.VersionStore.Publish | src/ai_trade/security_store.py:112-167 | an earlier time or a different version at the latest time is refused, the same version is reused, anything later extends the chain by exactly one linked version, also when the call fails after the file was created; an accepted version says what was offered |
| SecurityStore.OfferingAgainIsSafe | src/ai_trade/security_store.py:128-145 | a version that was published by a call that failed afterwards is reused when it is offered again |
| SecurityStore.VerdictExactly | src/ai_trade/security_store.py:128-145 | an offer is reused if and only if the newest version says the same, and extends the chain if and only if the longer list is a chain within the limit |
| SecurityStore.VersionStore.Resolve | src/ai_trade/security_store.py:169-176 | the newest version known by the cutoff, not-found when there is none, unavailable when there is no version at all |
| SecurityStore.ResolveIsStable | src/ai_trade/security_store.py:169-176 | publishing later versions never changes what an earlier cutoff resolves to |
| SecurityStore.ResolveIsUnique | src/ai_trade/security_store.py:169-176 | a cutoff resolves to one version |
| Holm.ApplyHolm | src/ai_trade/research_statistics.py:114-168 | each adjusted value is the order-free maximum of the corrected p-values up to its own; rejection is comparison with the level; bad families are refused |
| Holm.AdjustAll | src/ai_trade/research_statistics.py:145-153 | the running maximum over ranks, stored back under the original indices, is that order-free value |
| Holm.SortedIndices | src/ai_trade/research_statistics.py:148-150 | the indices in p-value order, each once |
| Holm.OrderDoesNotMatter | src/ai_trade/research_statistics.py:145-153 | equal p-values get one and the same adjusted value and permuting the family permutes the results |
| Holm.AdjustmentIsMonotone | src/ai_trade/research_statistics.py:145-153 | adjusting keeps the order of the family, never lowers a value and stays within one |
| Holm.RejectionMeansBonferroni | src/ai_trade/research_statistics.py:145-168 | the family-wise core: if any member of a set is rejected, some member passes the Bonferroni test for the size of that set |
| Holm.RejectedExactlyByStepDown | src/ai_trade/research_statistics.py:145-168 | a hypothesis is rejected exactly when the textbook step-down procedure gets as far as it: every sorted p-value up to its own passes the level divided by the number of hypotheses left |
| Bootstrap.BlockSampleMean | src/ai_trade/research_statistics.py:186-199 | the sampling loop ends after exactly as many elements as the series has, and returns their mean |
| Bootstrap.BlocksCoverEvenly | src/ai_trade/research_statistics.py:194-197 | summed over all starts, blocks add up to their length times the total |
| Bootstrap.ResamplesAverageToTheMean | src/ai_trade/research_statistics.py:186-199 | what the sampling loop picks, added up over every sequence of start indices, is the number of sequences times the total of the series: the resample means average to the sample mean |
| Bootstrap.FullBlocksGiveTheMean | src/ai_trade/research_statistics.py:186-199 | with blocks as long as the series every draw is the sample mean |
| Bootstrap.SubperiodMeans | src/ai_trade/research_statistics.py:202-211 | the means of the consecutive subperiods |
| Bootstrap.MeanIsAverage | src/ai_trade/research_statistics.py:198-211 | the mean times the number of elements is their sum |
| Bootstrap.SubperiodsPartition | src/ai_trade/research_statistics.py:202-211 | subperiods join to the series, differ in size by at most one, and are not empty when there are enough observations |
| Bootstrap.QuantileIsMonotone | src/ai_trade/research_statistics.py:214-221 | the interpolated quantile grows with the probability and stays inside the sample |
| Bootstrap.QuantileInterpolates | src/ai_trade/research_statistics.py:214-221 | the quantile lies on the line between its two neighbouring order statistics, at the place of its position between their indices |
| Archive.ShownPeriods | src/ai_trade/research_archive.py:175-259 | refuses an invalid query; without a date filter exactly the newest `limit` weeks or months of all the evidence are shown, whole, although only the newest dates were looked at; a week or month filter shows exactly that one |
| Archive.WholeExactly | src/ai_trade/research_archive.py:903-926 | for which queries every shown period holds all of its evidence, over all evidence: an if and only if on the filter and the grouping |
| Archive.TruncationChangesNothing | src/ai_trade/research_archive.py:903-926 | the newest `limit` periods of the kept dates are those of all dates, with the same records and totals |
| Archive.FilterShowsThePeriod | src/ai_trade/research_archive.py:905-918 | a filter leaves exactly its one period, with all of its evidence, or none when there is no evidence |
| Archive.ShownPeriodsAreWhole | src/ai_trade/research_archive.py:903-926 | keeping the newest 7 (31) times the limit never cuts one of the newest `limit` weeks (months) |
| Archive.TruncationHidesNoPeriod | src/ai_trade/research_archive.py:919-926 | and hides none of the periods that would be shown without truncation |
| Archive.UnfilteredShowsWholePeriods | src/ai_trade/research_archive.py:903-926 | the factor chosen for each kind of query is large enough for every kind of period it shows |
| Archive.FilterSelectsThePeriod | src/ai_trade/research_archive.py:909-918 | a week or month filter selects exactly the evidence dates of that week or month |
| Archive.MonthEndIsItsLastDay | src/ai_trade/research_archive.py:870-875 | the computed month end is the last day of the month, leap years included |
| ArchiveCalendar.MonthFirstExactly | src/ai_trade/research_archive.py:870-875 | the first day of every month in closed form from its year and number: the calendar of the model is the Gregorian one |
| ArchiveCalendar.CalendarRepeats | src/ai_trade/research_archive.py:870-875 | four hundred years are 146097 days, a whole number of weeks, so months repeat with their weekdays |
| ArchiveCalendar.StartsAreTheFirsts | src/ai_trade/research_archive.py:658-683 | a day's month starts on the first of its date, its week on the Monday at or before it |
| Archive.PeriodRecords | src/ai_trade/research_archive.py:658-867 | the records are shared out by week or month, each once, newest period first, days in order |
| Archive.GroupingConserves | src/ai_trade/research_archive.py:662-749 | session, trade, rejection and note counts of the periods add up to those of the days, and compounded period returns multiply to the product of the daily ones |
| ArchiveCalendar.PeriodOfOneRecord | src/ai_trade/research_archive.py:683-749 | a period of one day repeats it; only a day with an equity session counts as one and brings a return |
| ArchiveCalendar.PeriodOfTwoParts | src/ai_trade/research_archive.py:683-749 | two stretches make up one: counts add and returns compound |
| Webhook.VerifyRecords | src/ai_trade/notification_delivery.py:344-398 | verification accepts exactly the records that are bound, contiguous from one, within the limits, with a success only at the end |
| Webhook.WebhookStore.DeliverOne | src/ai_trade/notification_delivery.py:401-466 | the outbox, the attempts, the requests sent and the ending of one call are those of the specification; only one chain grows; nothing is sent for a closed delivery; a finished call leaves it closed; what each reply leads to is stated by `DeliveryOutcomes` |
| Webhook.WebhookStore.KeepTrying | src/ai_trade/notification_delivery.py:415-466 | the retry loop never exceeds the maximum and stops at the first outcome that is not retryable |
| Webhook.WebhookStore.TryOnce | src/ai_trade/notification_delivery.py:417-459 | a crash or failed write between sending and recording loses the attempt and nothing else |
| Webhook.WebhookStore.EnsureOutbox | src/ai_trade/notification_delivery.py:469-529 | one outbox record per notification and target, never rewritten |
| Webhook.WebhookStore.DeliverAll | src/ai_trade/notification_delivery.py:213-229 | a batch is the calls on its deliveries in order, up to the first that raises, and leaves the store in order |
| Webhook.NextAttemptKeeps | src/ai_trade/notification_delivery.py:401-466 | a next attempt keeps every chain contiguous, bounded, and settled at most once, at its end |
| Webhook.KeptIsAccepted | src/ai_trade/notification_delivery.py:344-398 | what delivery leaves behind is accepted if and only if the two directory limits are kept, which delivery does not check |
| Webhook.FewTargetsStayAcceptable | src/ai_trade/notification_delivery.py:354-365 | while notifications times targets stay within the outbox limit, whatever delivery leaves behind is accepted |
| Webhook.TargetsTimesNotificationsDecide | src/ai_trade/notification_delivery.py:354-365 | that bound is exact: with an outbox record for every notification and target the store is accepted if and only if their product is within the limit |
| Webhook.SecondTargetOverflows | src/ai_trade/notification_delivery.py:354-365 | an inbox more than half full is accepted with one target and refused with a second one |
| Webhook.RecordableReplies | src/ai_trade/notification_delivery.py:770-905 | which replies can be recorded, exactly: the status lies in 100..599, the kept error text has no control character but line breaks, and the body of an error reply does not break off |
| Webhook.SafeErrorIsBounded | src/ai_trade/notification_delivery.py:891-938 | a cleaned error text passes the check of the attempt record exactly when what is kept of it has no control character but line breaks; its length never matters |
| Webhook.StripExactly | src/ai_trade/notification_delivery.py:936-938 | stripping takes spaces away at both ends, all of them and nothing else |
| Webhook.TabbedReasonIsUnrecordable | src/ai_trade/notification_delivery.py:936-938 | a tab in the reason phrase of an error reply makes it unrecordable, whatever its status |
| Webhook.CallMovesOn | src/ai_trade/notification_delivery.py:415-459 | a call on an open delivery records an attempt exactly when the first reply can be recorded and is written; otherwise it sends one request and changes nothing |
| DeliveryOutcomes.CallExactly | src/ai_trade/notification_delivery.py:415-466 | one call on an open delivery, exactly: passing failures on record are tried again at once up to the limit; the first other reply, or the first that does not get on record, ends it; requests, records, their statuses and the ending |
| DeliveryOutcomes.EveryCallEnds | src/ai_trade/notification_delivery.py:415-466 | and there always is such an end |
| DeliveryOutcomes.PassingFailureIsTriedAgain | src/ai_trade/notification_delivery.py:424-466 | a server error, 408, 425, 429 or a transport exception leaves the delivery open while attempts remain, and the same call sends the next request |
| DeliveryOutcomes.AnyOtherReplySettles | src/ai_trade/notification_delivery.py:424-461 | a status in 200..299 settles it as a success and anything else as a permanent failure, with no further request in this call or any later one |
| DeliveryOutcomes.StatusDecides | src/ai_trade/notification_delivery.py:907-919 | which recorded statuses are which, number by number |
| Webhook.UnrecordableRepliesAreSentForever | src/ai_trade/notification_delivery.py:401-466 | while no reply can be recorded, any number of delivery calls leaves the store as it is and sends one request each |
| Webhook.OneReplyStarvesTheRest | src/ai_trade/notification_delivery.py:213-229 | over any number of batches with such a delivery in front, nothing is ever written for a later delivery, every batch fails, and the delivery in front never settles |

## Left out

- MonitoringRuns.EveryRunIsIntact: the records of the other notification channels (`verify_channel_records`) are not modelled.
- MonitoringProfile.Profile.MutateWatchlist: `create_watchlist`, `create_rule` and `mutate_rule` are not methods of the model; they reach the store through the same revision writer, which is a step of every run for arbitrary lists.
- MonitoringProfile.Profile.ScanProfile: takes the snapshot of a market loaded from cache files; for other market objects see `OneRule` and `RuleEngine.CommitIsIntactIffCutoffIsNotEarlier`. An interrupted call only promises to have extended the run; what the store can then be is stated by `CommitScan` and by the run invariants.
- Bootstrap.BlockSampleMean: `moving_block_bootstrap_mean` around it (random draws, standard error, p-value) is not modelled; the draws are arbitrary start indices.
- Archive.ShownPeriods: daily records, drawdowns, missing sessions, statuses and the journal are not part of the projection; only what is grouped, counted and compounded is.
- Archive.MonthEndIsItsLastDay: years are unbounded; the program's dates end with the year 9999.
- SecurityStore.VersionStore.Publish: the payload is taken as already validated.
- Webhook.WebhookStore.DeliverOne: sleeping between retries, signatures, error codes and the contents of response bodies are not modelled, and an exception other than an error reply carries no status.
- MarketData.Load: manifests, file hashes and the bars themselves; only their dates matter to a scan.
- How a rule's condition is measured on market data (`_evaluate_rule`): an arbitrary function that may exclude, raise, or observe.
- Benchmarks, metrics and report metadata of a backtest: computed from the modelled curve and trades, nothing feeds back.
- Text bounds, time zones, JSON, hashing, symbolic links, fsync, staging directories and file modes.
- Floating-point rounding: all arithmetic is exact.
- The command line, the web site, cloud clients, notification channels, the journal, factor and broker packages.
