# CDT-Monitor core in Dafny

CDT-Monitor watches the outbound CDT traffic of Alibaba Cloud accounts. It stops an instance when the
traffic passes a percentage of its quota, starts and stops instances on a daily schedule, and
restarts an instance that is found stopped. It keeps its settings and accounts in two tables
(`settings`, `accounts`) and reports through e-mail, Telegram and a webhook. This project models
the core of it:

- `time_window.dfy` (module `TimeWindow`): the schedule window test `isTimeInRange`, done as
  string comparison of `HH:MM` values. It is proved equal to a minutes-of-day window that wraps
  past midnight.
- `store.dfy` (module `Store`): the `accounts` table as a map from id to row, and the row writes
  that the monitor issues. It also holds the id-ordered `SELECT`, `getAccountById`, the
  "existing map" from access key to row, and the settings upsert.
- `reconcile.dfy` (module `Reconcile`): the per-account decision of `monitor()`, written as pure
  stage functions:
  - schedule, interval and refresh with the cache policy;
  - the over-threshold circuit breaker and the keep-alive;
  - the final status.
  The stages are proved against the behaviour the system promises. The status view of
  `getStatusForFrontend()` is included.
- `traffic_check.dfy` (module `TrafficCheck`): class `AliyunTrafficCheck` with its
  database-backed state. Its methods are proved against the stage functions:
  - `monitor()`, `getStatusForFrontend()` and `refreshAccount()`;
  - `updateConfig()`, with the carry-over of cached traffic by access key;
  - `setup()`, `login()`, `saveSetting()`, `isInitialized()` and `getConfigForFrontend()`.
- `notification.dfy` (module `Notification`): class `NotificationService`. It covers:
  - the channel gating and the aggregation of results in `dispatchNotifications`;
  - the `notifySchedule` gate;
  - the Telegram and webhook success verdicts;
  - the webhook placeholders and their extraction from the message details.
- `config_manager.dfy` (module `ConfigStore`): class `ConfigManager`. It covers:
  - `get`, `getAccountById`, `isInitialized` and `saveSetting`;
  - the last-run timestamp;
  - `updateConfig`, which upserts submitted accounts by access key and deletes the rest in one
    transaction;
  - `reorderIds`, which renumbers ids to `1..n` in id order;
  - the two single-row updates.
- `php.dfy` (module `Php`): the PHP semantics the core relies on:
  - falsy strings and `?:` defaults;
  - byte-wise string `<`;
  - `(int)` casts and integer-to-string conversion;
  - `implode`, `str_replace` and `substr`.
- `wrappers.dfy` (module `Wrappers`): `Option`.

Remote calls are oracles passed in as parameters:
- the traffic query and the instance status query (`Observation`);
- the curl transfers of Telegram and the webhook (`Transfer`);
- the mail result (`Outcome`).

In the two `updateConfig` methods a database exception is a parameter too: `fault` names the
statement that throws. Elsewhere the model's statements always succeed. The clock is a
parameter: `now` gives the seconds and `hhmm` the `H:i` string.

## Model

| member | source | states |
|---|---|---|
| TimeWindow.IsTimeInRange | AliyunTrafficCheck.php:245-252 | the string test itself; it has no contract of its own, and `IsTimeInRangeIsDailyWindow` and `WrappedWindowIsComplement` state what it means |
| TimeWindow.WrappedWindowIsComplement | AliyunTrafficCheck.php:245-252 | a window that wraps past midnight contains exactly the times outside the reversed window |
| TimeWindow.StopMinuteOutsideWindow | AliyunTrafficCheck.php:245-252 | the end minute of a non-empty window is outside it (the window is half-open) |
| TimeWindow.NightWindowExample | AliyunTrafficCheck.php:245-252 | 23:30 is inside 22:00–06:00 and 12:00 is not |
| TimeWindow.LessIsEarlier | AliyunTrafficCheck.php:247-250 | for well-formed `HH:MM` strings, PHP string `<` orders them exactly as their minutes of the day |
| TimeWindow.IsTimeInRangeIsDailyWindow | AliyunTrafficCheck.php:245-252 | the string test equals "the forward distance from start to now is less than from start to stop" on the 24-hour clock |
| Php.LessIrreflexive | AliyunTrafficCheck.php:247 | string `<` is irreflexive |
| Php.LessAsymmetric | AliyunTrafficCheck.php:247 | string `<` is asymmetric |
| Php.LessTotal | AliyunTrafficCheck.php:247 | any two strings are equal or ordered one way |
| Php.LessTransitive | AliyunTrafficCheck.php:247 | string `<` is transitive |
| Php.IntCast | AliyunTrafficCheck.php:288 | `(int)` of a string: an optional sign and the leading decimal digits; no contract of its own, `IntCastRoundTrip` states its meaning on decimal text |
| Php.IntCastRoundTrip | ConfigManager.php:63-71 | `(int)` of the decimal text of any integer gives the integer back |
| Php.NatToStringValue | ConfigManager.php:63-66 | the decimal text written for a timestamp has that value |
| Php.RemoveAllSuffix | NotificationService.php:266-267 | removing `" GB"` or `"%"` from a value with that suffix and no other occurrence gives the value |
| Php.Mask | AliyunTrafficCheck.php:480 | the masked key is the whole key when shorter than seven characters, else its first seven, followed by `***` |
| Store.ApplyWrite | ConfigManager.php:181-191 | an `UPDATE ... WHERE id = ?` changes only that row, and changes nothing when there is no such id |
| Store.ApplyWrites | AliyunTrafficCheck.php:295-296 | a sequence of updates keeps the set of ids and every row's id |
| Store.ApplyWritesToOneRow | AliyunTrafficCheck.php:295-296 | writes aimed at one id leave every other row unchanged |
| Store.RowsInIdOrder | ConfigManager.php:22-23 | the loaded account list holds every row once, in ascending id order |
| Store.FindAccount | ConfigManager.php:41-47 | the lookup returns a row with the id iff one exists in the list |
| Store.LastByKey | AliyunTrafficCheck.php:162-166 | the existing map is keyed by access key and holds every key of the list |
| Store.LastByKeyIsLast | AliyunTrafficCheck.php:162-166 | the map holds the last row of the list with each key |
| Store.LastByKeyLastIndex | ConfigManager.php:100-104 | every entry of the map is a row of the list with no later row of the same key |
| Store.ExistingIsHighest | AliyunTrafficCheck.php:162-166 | on the id-ordered list, the map holds the row with the highest id for each key |
| Store.ExistingAbsent | AliyunTrafficCheck.php:174-177 | a key no row has is absent from the map |
| Store.ExistingByKey | ConfigManager.php:100-104 | the loop that builds the map computes `LastByKey` of the list |
| Store.ApplySettingsLookup | AliyunTrafficCheck.php:106-112 | after a series of settings upserts, each key holds the last value assigned to it, or its old value |
| Reconcile.ConfigOf | AliyunTrafficCheck.php:288-293 | the monitor's settings with their `??` defaults; no contract of its own, `ConfigDefaults` states the defaults |
| Reconcile.Step | AliyunTrafficCheck.php:303-419 | one account's pass as the five stages in order; no contract of its own, the Reconcile lemmas below state its properties |
| Reconcile.Conclude | AliyunTrafficCheck.php:368-419 | steps 3 to 5 of one account's pass; no contract of its own, `BreakerBranches`, `KeepAliveRestarts` and `ScheduleSetsFinalStatus` state its properties |
| Reconcile.FrontendStep | AliyunTrafficCheck.php:440-490 | one account of the status page; no contract of its own, `FrontendMatchesMonitor` relates it to `Step` |
| Reconcile.ConfigDefaults | AliyunTrafficCheck.php:288-293 | with no settings the monitor uses threshold 95, KeepCharging, stop_and_notify, interval 600, keep-alive and mails off |
| Reconcile.RoundCentsClose | AliyunTrafficCheck.php:369 | rounding to two decimals moves a value by at most 0.005 |
| Reconcile.OverThresholdIff | AliyunTrafficCheck.php:368-371 | the rounded percentage reaches the threshold iff the exact one is within half a cent below it |
| Reconcile.ScheduleForcesRefresh | AliyunTrafficCheck.php:305-331 | a schedule action forces a refresh on the same pass |
| Reconcile.QuietPassWritesNothing | AliyunTrafficCheck.php:335-366 | with no refresh and no keep-alive, the pass writes, sends and controls nothing, and the status is unchanged |
| Reconcile.BreakerOnlyOnRefresh | AliyunTrafficCheck.php:374-390 | the breaker fires only on a pass that refreshed |
| Reconcile.BreakerBranches | AliyunTrafficCheck.php:374-390 | over the threshold: stop_and_notify stops a non-stopped instance and marks it Stopping, or only reports an already stopped one; other actions only warn; mail follows the warning setting |
| Reconcile.RefreshCachePolicy | AliyunTrafficCheck.php:339-360 | on every refreshed pass the first UPDATE stores the new traffic, or the cached traffic when the query failed, with the observed status, and writes the old `updated_at` back when the fetch failed or the status stayed `Unknown`; on a pass with no further action that is the row's final state |
| Reconcile.ScheduleSetsFinalStatus | AliyunTrafficCheck.php:416-419 | after a schedule action the row ends Starting or Stopping, stamped with the pass time |
| Reconcile.KeepAliveRestarts | AliyunTrafficCheck.php:393-413 | a keep-alive starts the instance, records its time and leaves the row Starting |
| Reconcile.LastKeepAliveWins | AliyunTrafficCheck.php:403 | the row's keep-alive time is the one of the last keep-alive write |
| Reconcile.KeepAliveUntouched | AliyunTrafficCheck.php:393-413 | writes without a keep-alive leave the keep-alive time unchanged |
| Reconcile.KeepAliveCooldownHolds | AliyunTrafficCheck.php:20 | no second keep-alive happens within 1800 seconds of one |
| Reconcile.UnknownStatusRetriedNextPass | AliyunTrafficCheck.php:328-331 | an Unknown status is refreshed again on the next pass more than 60 seconds after the last update |
| Reconcile.ProvisionalStoppingRechecked | AliyunTrafficCheck.php:378-383 | a breaker stop leaves Stopping, which is rechecked more than 60 seconds later |
| Reconcile.ScenarioOverThresholdStops | AliyunTrafficCheck.php:368-390 | 96 of 100 GB at threshold 95 stops a running instance |
| Reconcile.ScenarioFailedFetchOverThreshold | AliyunTrafficCheck.php:339-390 | a failed fetch at 96 of 100 GB over a 95% threshold writes the old timestamp first, but the breaker leaves the row Stopping with `updated_at` at now |
| Reconcile.ScenarioTransientBurst | AliyunTrafficCheck.php:328-331 | a Starting instance is not queried again after 30 seconds and is after 90 |
| Reconcile.PassOutcomes | AliyunTrafficCheck.php:298-424 | one outcome per account, each decided from that account alone |
| Reconcile.StepWritesOwnRow | AliyunTrafficCheck.php:295-418 | every write of an account's step is aimed at that account's row |
| Reconcile.PassIsPerAccount | AliyunTrafficCheck.php:298-424 | after a pass, each listed row is its own step's result and every other row is unchanged |
| Reconcile.WritesPerRow | AliyunTrafficCheck.php:298-424 | writes from steps with distinct ids do not interfere across rows |
| Reconcile.FrontendMatchesMonitor | AliyunTrafficCheck.php:429-493 | the status view refreshes when the monitor would and writes what the monitor writes, without control actions or mail |
| TrafficCheck.FrontendConfig | AliyunTrafficCheck.php:227-240 | the configuration view has one entry per account, in order |
| TrafficCheck.SettingsViewDefaults | AliyunTrafficCheck.php:207-225 | with no settings the view shows the `??` defaults of `getConfigForFrontend` (95, KeepCharging, stop_and_notify, 600, port 465, ssl) |
| TrafficCheck.SettingsRoundTrip | AliyunTrafficCheck.php:145-160 | settings saved by `updateConfig` read back unchanged in the configuration view |
| TrafficCheck.NotificationRoundTrip | AliyunTrafficCheck.php:153-160 | the mail settings saved with the form read back unchanged in the configuration view |
| TrafficCheck.SettingsWritten | AliyunTrafficCheck.php:145-160 | after the settings writes each key of the form holds the value submitted for it |
| TrafficCheck.SettingWritesLast | AliyunTrafficCheck.php:145-160 | each settings key is written once, so the value saved for it is the submitted one |
| TrafficCheck.LastAssignedUnique | AliyunTrafficCheck.php:145-160 | a key assigned once maps to that value |
| TrafficCheck.LastAssignedAbsent | AliyunTrafficCheck.php:145-160 | a key never assigned is untouched |
| TrafficCheck.SyncedTable | AliyunTrafficCheck.php:168-194 | the table after the DELETE and the re-inserts; no contract of its own, `SyncedTableKeys`, `SyncedTableRow` and `SyncCarriesObservations` state its content |
| TrafficCheck.SyncedTableKeys | AliyunTrafficCheck.php:168-194 | the re-inserted table has exactly the ids `sequence+1..sequence+n`, each row under its own id |
| TrafficCheck.SyncedTableRow | AliyunTrafficCheck.php:172-192 | the `i`-th submitted account is stored under id `sequence+1+i` with the observations of the old row with its key |
| TrafficCheck.SyncCarriesObservations | AliyunTrafficCheck.php:162-192 | a re-inserted account keeps the traffic, status and times of the highest-id old row with its key, and starts at zero and Unknown when there is none |
| TrafficCheck.AliyunTrafficCheck.constructor | AliyunTrafficCheck.php:22-32 | a connection error is kept and the caches stay empty; otherwise the caches are loaded |
| TrafficCheck.AliyunTrafficCheck.LoadConfig | AliyunTrafficCheck.php:93-104 | the settings are merged into the cache and the accounts are cached in id order |
| TrafficCheck.AliyunTrafficCheck.SaveSetting | AliyunTrafficCheck.php:106-112 | the setting is upserted in the table and the cache; nothing changes after an initialisation error |
| TrafficCheck.AliyunTrafficCheck.Login | AliyunTrafficCheck.php:127-137 | login succeeds iff a non-empty admin password is cached and the given password equals it; so an empty password never logs in |
| TrafficCheck.AliyunTrafficCheck.LoginMeansInitialized | AliyunTrafficCheck.php:114-118 | a successful login implies an initialised system, and an initialised system accepts its stored password |
| TrafficCheck.AliyunTrafficCheck.SaveThenRead | AliyunTrafficCheck.php:106-118 | a saved setting reads back, and saving a truthy admin password initialises |
| TrafficCheck.AliyunTrafficCheck.GetConfigForFrontend | AliyunTrafficCheck.php:205-243 | nothing after an initialisation error; otherwise the view of the cached settings and accounts |
| TrafficCheck.AliyunTrafficCheck.Setup | AliyunTrafficCheck.php:120-125 | after an initialisation error it throws, and once initialised it returns false; both leave the tables, counter and caches unchanged; otherwise it is `updateConfig`: a rollback that keeps the tables and account cache on a fault, or the saved settings, the synced table, the advanced counter and the reloaded caches |
| TrafficCheck.AliyunTrafficCheck.Execute | AliyunTrafficCheck.php:295-296 | one prepared `UPDATE` applies one write to the table |
| TrafficCheck.AliyunTrafficCheck.UpdateConfig | AliyunTrafficCheck.php:139-203 | all or nothing: a fault rolls back the tables; success applies the settings and replaces the accounts with the re-inserted table |
| TrafficCheck.AliyunTrafficCheck.Save | AliyunTrafficCheck.php:142-201 | a fault leaves the tables and the account cache as they were; a commit applies the settings, replaces the accounts and reloads both caches |
| TrafficCheck.AliyunTrafficCheck.Transaction | AliyunTrafficCheck.php:142-196 | the transaction succeeds iff no statement faults; a fault rolls back rows, settings and counter, and success leaves the synced table |
| TrafficCheck.AliyunTrafficCheck.ReplaceAccounts | AliyunTrafficCheck.php:162-194 | without a fault among the inserts the table becomes `SyncedTable` of the old rows' existing map, keyed by id and below the counter |
| TrafficCheck.AliyunTrafficCheck.SaveSettings | AliyunTrafficCheck.php:145-160 | the settings upserts stop at the faulting one, and the cache keeps the writes made before it |
| TrafficCheck.AliyunTrafficCheck.InsertAccounts | AliyunTrafficCheck.php:168-194 | the insert loop produces `SyncedTable` unless a statement faults |
| TrafficCheck.AliyunTrafficCheck.RefreshAccount | AliyunTrafficCheck.php:254-279 | false for an unknown id; otherwise the row takes the observed traffic and first status, stamped now |
| TrafficCheck.AliyunTrafficCheck.ReconcileAll | AliyunTrafficCheck.php:298-424 | the loop over the cached accounts yields `PassOutcomes` and applies all their writes, keeping the set of ids |
| TrafficCheck.AliyunTrafficCheck.ConcludeStep | AliyunTrafficCheck.php:368-419 | the breaker, keep-alive and final status code compute `Conclude` and apply exactly its writes |
| TrafficCheck.AliyunTrafficCheck.ReconcileAccount | AliyunTrafficCheck.php:298-424 | the monitor's body for one account computes `Step` and applies exactly its writes |
| TrafficCheck.AliyunTrafficCheck.ScheduleStep | AliyunTrafficCheck.php:305-320 | the schedule code computes the schedule stage and marks the status for transition iff a start or stop time matches |
| TrafficCheck.AliyunTrafficCheck.RefreshStep | AliyunTrafficCheck.php:322-366 | the refresh code decides `ShouldRefresh` and computes the refresh stage |
| TrafficCheck.AliyunTrafficCheck.BreakerStep | AliyunTrafficCheck.php:373-390 | the breaker code computes the breaker stage |
| TrafficCheck.AliyunTrafficCheck.KeepAliveStep | AliyunTrafficCheck.php:392-413 | the keep-alive code decides `KeepAliveDue` and computes its stage |
| TrafficCheck.AliyunTrafficCheck.Monitor | AliyunTrafficCheck.php:281-427 | the error text after an initialisation error; otherwise the per-account outcomes, with the table updated by their writes |
| TrafficCheck.AliyunTrafficCheck.GetStatusForFrontend | AliyunTrafficCheck.php:429-493 | the error after an initialisation error; otherwise one entry per account, with the refresh writes applied |
| TrafficCheck.AliyunTrafficCheck.StatusAll | AliyunTrafficCheck.php:439-491 | the loop over the cached accounts yields `FrontendEntries` and applies the refresh writes `FrontendWrites`, keeping the set of ids |
| TrafficCheck.AliyunTrafficCheck.StatusOfAccount | AliyunTrafficCheck.php:440-490 | the status page's code for one account computes `FrontendStep`: at most the refresh UPDATE, and the entry |
| TrafficCheck.FrontendEntries | AliyunTrafficCheck.php:440-490 | one status entry per account, in order |
| Notification.TelegramVerdict | NotificationService.php:247-249 | Telegram succeeds iff there is no curl error and the HTTP code is 200 |
| Notification.WebhookVerdict | NotificationService.php:370-372 | a webhook succeeds iff there is no curl error and the HTTP code is below 400 |
| Notification.VerdictsDiffer | NotificationService.php:247-249 | a Telegram success is a webhook success; they differ exactly on the codes other than 200 below 400; a curl error fails both with its text |
| Notification.LastValue | NotificationService.php:265-268 | a placeholder has a value iff some detail carries its label |
| Notification.LastValueIsLast | NotificationService.php:265-268 | the value comes from the last detail with the label |
| Notification.ReplacePairs | NotificationService.php:269-275 | five placeholders, no two the same |
| Notification.WarningPlaceholdersRoundTrip | NotificationService.php:47-53 | the webhook placeholders of a traffic warning give back the traffic and threshold it was built from |
| Notification.SchedulePlaceholdersDefault | NotificationService.php:24-29 | schedule details carry no traffic, so both traffic placeholders are `N/A` |
| Notification.Errors | NotificationService.php:89-118 | one error per failed channel, and none iff every attempt succeeded |
| Notification.Successes | NotificationService.php:89-118 | successes and errors add up to the attempts |
| Notification.Channels | NotificationService.php:95-118 | the attempted channels in order |
| Notification.AttemptsIndependentOfAnswers | NotificationService.php:95-118 | which channels are tried depends only on the configuration, in the order email, Telegram, webhook |
| Notification.NothingEnabledIsSuccess | NotificationService.php:120 | with no channel enabled nothing is tried and the result is success |
| Notification.Aggregate | NotificationService.php:120-127 | the dispatch result from the attempts; no contract of its own, the `Aggregate*` lemmas state its cases |
| Notification.AggregateSuccessIff | NotificationService.php:120-127 | the result is success iff every attempted channel succeeded |
| Notification.AggregateAllFailed | NotificationService.php:122-123 | when all fail, the error joins every channel's message with ` \| ` |
| Notification.AggregatePartial | NotificationService.php:124-125 | a mix of success and failure is a "partial" failure listing the errors |
| Notification.CountOneMore | NotificationService.php:100-101 | one more attempt adds one error or one success |
| Notification.NotificationService.constructor | NotificationService.php:7 | a new service has an empty configuration |
| Notification.NotificationService.SetConfig | NotificationService.php:9-12 | the configuration is replaced |
| Notification.NotificationService.SendTelegram | NotificationService.php:202-250 | a missing token or chat id fails with the configuration error; otherwise the transfer's verdict |
| Notification.NotificationService.SendWebhook | NotificationService.php:252-275 | a missing URL fails with the configuration error; otherwise the placeholders are built and the transfer's verdict returned |
| Notification.NotificationService.DispatchNotifications | NotificationService.php:89-128 | the result is the aggregate of the enabled channels' results |
| Notification.NotificationService.TryEmail | NotificationService.php:95-102 | the e-mail branch adds its attempt to the tally |
| Notification.NotificationService.TryTelegram | NotificationService.php:104-110 | the Telegram branch adds its attempt to the tally |
| Notification.NotificationService.TryWebhook | NotificationService.php:112-118 | the webhook branch adds its attempt and builds the placeholders |
| Notification.NotificationService.NotifySchedule | NotificationService.php:18-38 | without `enable_schedule_email` = "1" nothing is sent and the result is success; otherwise a dispatch |
| Notification.NotificationService.SendTrafficWarning | NotificationService.php:44-63 | a dispatch of the warning, whose webhook placeholders carry the traffic and threshold |
| ConfigStore.Fresh | ConfigManager.php:107 | at most one new id per submitted entry |
| ConfigStore.Upsert | ConfigManager.php:110-128 | the id counter never decreases |
| ConfigStore.UpsertSequence | ConfigManager.php:110-128 | the id counter grows by exactly the number of entries whose key is new |
| ConfigStore.UpsertKeys | ConfigManager.php:107 | after the loop the ids are the old ones plus a block of fresh ids above the old counter |
| ConfigStore.UpsertUntargeted | ConfigManager.php:118-122 | an old row no entry updates is unchanged |
| ConfigStore.UpsertLastTarget | ConfigManager.php:118-122 | an updated old row holds the configuration of the last entry aimed at it |
| ConfigStore.UpsertKeepsIdentity | ConfigManager.php:108 | updates keep a row's id, key and observations |
| ConfigStore.UpsertKeptIff | ConfigManager.php:118-122 | a row id is kept iff some entry updates it |
| ConfigStore.UpsertNewRow | ConfigManager.php:123-127 | an entry with an unknown key is inserted at the next id, with zero traffic and Unknown status |
| ConfigStore.Sync | ConfigManager.php:131-136 | the corrected sync keeps the table keyed by id |
| ConfigStore.SyncAsWritten | ConfigManager.php:98-136 | the sync the code performs (the upsert loop, then the DELETE of the existing map's ids that were not kept) keeps the table keyed by id |
| ConfigStore.SyncAsWrittenBelow | ConfigManager.php:107-136 | after the sync as written every id is at most the counter |
| ConfigStore.TargetsIffHighest | ConfigManager.php:100-104 | the existing map points a key to a row iff that row has the highest id with the key |
| ConfigStore.ExistingKeysIff | ConfigManager.php:100-104 | a key is in the existing map iff some row has it |
| ConfigStore.FreshIsUnseen | ConfigManager.php:123-127 | the number of inserts equals the number of entries whose key no row has |
| ConfigStore.SyncKeepsOldRowIff | ConfigManager.php:131-136 | an old row survives iff it is the highest-id row with its key and that key is submitted |
| ConfigStore.SyncUpdatesListed | ConfigManager.php:118-122 | a surviving row holds the configuration of the last entry with its key |
| ConfigStore.SyncInsertsUnseen | ConfigManager.php:123-127 | each entry with a new key gets the next fresh id and a fresh row |
| ConfigStore.SyncNewIds | ConfigManager.php:107 | the new ids are exactly those above the old counter up to the new one |
| ConfigStore.AsWrittenKeepsShadowed | ConfigManager.php:131-136 | as written, an old row shadowed by a higher-id row with the same key is never deleted |
| ConfigStore.SyncAgreesWithoutDuplicates | ConfigManager.php:131-136 | with unique keys, the code as written and the corrected sync agree |
| ConfigStore.UpsertInsertsTwice | ConfigManager.php:123-127 | a new key listed twice is inserted twice, under two fresh ids |
| ConfigStore.TrimmedInsertsTwice | ConfigManager.php:131-136 | both rows inserted for a key listed twice survive the delete as written |
| ConfigStore.AsWrittenInsertsDuplicate | ConfigManager.php:118-136 | as written, a key no row has that is submitted twice is stored in two rows |
| ConfigStore.DuplicateInsertedAsWritten | ConfigManager.php:118-127 | as written, any new account submitted twice on an empty table is stored as two rows with its key |
| ConfigStore.ShadowedRowExample | ConfigManager.php:131-136 | as written, submitting no accounts over two rows with one key leaves row 1; the corrected sync removes it |
| ConfigStore.UpsertWellKeyed | ConfigManager.php:110-128 | the loop keeps rows keyed by id and below the counter |
| ConfigStore.SyncBelow | ConfigManager.php:107 | after the sync every id is at most the counter |
| ConfigStore.Renumber | ConfigManager.php:165-173 | renumbering gives ids `1..n` to the rows in their order |
| ConfigStore.RenumberWellKeyed | ConfigManager.php:165-173 | the renumbered table is keyed by id and the counter is n |
| ConfigStore.RenumberKeepsRows | ConfigManager.php:156-173 | every row survives renumbering with only its id changed |
| ConfigStore.RenumberKeepsOrder | ConfigManager.php:165-173 | renumbering preserves the order of ids |
| ConfigStore.ConfigManager.constructor | ConfigManager.php:9-13 | construction loads the settings and the accounts in id order |
| ConfigStore.ConfigManager.Load | ConfigManager.php:15-24 | the settings are merged into the cache and the accounts cached in id order |
| ConfigStore.ConfigManager.Get | ConfigManager.php:26-29 | a cached key gives its value, and any other key gives the default |
| ConfigStore.ConfigManager.SaveThenGet | ConfigManager.php:54-59 | a saved setting reads back and no other key changes |
| ConfigStore.ConfigManager.GetAccountById | ConfigManager.php:41-47 | a cached account with the id, or null iff there is none |
| ConfigStore.ConfigManager.SaveInitializes | ConfigManager.php:49-52 | the system is initialised iff the admin password is not falsy |
| ConfigStore.ConfigManager.SaveSetting | ConfigManager.php:54-59 | the setting is upserted in the table and in the cache |
| ConfigStore.ConfigManager.UpdateLastRunTime | ConfigManager.php:63-66 | the stored run time reads back as the same integer |
| ConfigStore.ConfigManager.GetLastRunTime | ConfigManager.php:68-71 | with no stored run time the result is 0 |
| ConfigStore.ConfigManager.UpdateConfig | ConfigManager.php:75-150 | all or nothing: a fault rolls back rows, settings and ids; success applies the settings and the sync as written, then the renumbering unless it fails, and reloads the caches |
| ConfigStore.ConfigManager.Transaction | ConfigManager.php:77-138 | the transaction succeeds iff no statement faults; a fault rolls back rows, settings and ids, and success leaves the sync as written (`SyncAsWritten`) |
| ConfigStore.ConfigManager.Commit | ConfigManager.php:140-144 | after the commit the table and counter are the renumbered ones (unless renumbering fails) and the caches are reloaded in id order |
| ConfigStore.ConfigManager.SaveSettings | ConfigManager.php:81-96 | the settings upserts, stopping at a faulting one, with the cache keeping the earlier writes |
| ConfigStore.ConfigManager.UpsertAccounts | ConfigManager.php:110-128 | the loop computes `Upsert` unless a statement faults |
| ConfigStore.ConfigManager.ReorderIds | ConfigManager.php:152-179 | the table and the counter become the renumbered ones, or stay as they were when the transaction fails |
| ConfigStore.ConfigManager.UpdateAccountStatus | ConfigManager.php:181-185 | exactly the row with the id takes the traffic, status and time |
| ConfigStore.ConfigManager.UpdateLastKeepAlive | ConfigManager.php:187-191 | exactly the row with the id takes the keep-alive time |

## Left out

- The Alibaba Cloud SDK (`AliyunService.php`, `getTrafficApi`, `getInstanceStatusApi`, `controlInstance`) is not part of this model. Its answers are the `Observation` oracle, and its calls are recorded as effects.
- `controlInstance` returns early on an empty `instance_id`. The model records the control effect either way, because the effect is the SDK call's request.
- Traffic is an exact `real`. The byte-to-GB division and PHP floating-point rounding are not modelled; `round(x, 2)` is rounding to the nearest hundredth.
- PHP loose comparisons are not modelled: numeric strings compared with `==`, the loose `==` on ids, and `(int)` on leading whitespace or on exponent notation (PHP casts `"1e3"` to 1000; the model reads the leading digits and gives 1). Settings are compared as the strings the forms submit.
- Integers are unbounded; PHP integer overflow to float is not modelled.
- `date()`, `time()` and `usleep` are parameters or left out. The log lines, HTML rendering (`renderEmailTemplate`), PHPMailer, curl options, JSON encoding, `urlencode`, `strtr` of the webhook body and HTTP headers are left out.
- Notification.NotificationService.SendTelegram: the proxy and URL building are left out. Only the configuration check and the verdict on the transfer are modelled.
- Notification.NotificationService.SendWebhook: the request body and method are left out. Only the URL check, the placeholders and the verdict are modelled.
- `sendTestEmail`, `sendTestTelegram`, `sendTestWebhook`, `getRegionName`, `renderTemplate`, `getAllSettings` and `getAccounts` are left out: they are presentation or pass-through.
- `Database.php`, `index.php` and `monitor.php` are not part of this model: connection, schema migration, HTTP routing and cron entry.
- Concurrency between a cron pass and a web request is not modelled; each operation runs alone.
- Three queries have no `ORDER BY`: AliyunTrafficCheck.php lines 102 and 163, and ConfigManager.php line 100. They are modelled as returning rows in ascending id order, which is SQLite's rowid order for these tables.
- `load()` is modelled as merging the stored settings into the cache, which is what the overwriting loop does.
- The DELETE and the commit of `updateConfig` share one fault index after the per-entry statements.
- ConfigStore.ConfigManager.UpdateConfig: a throw in `load()` after the commit is not modelled. The source then returns false with the new table committed and the cache partly merged; the model's `fault` index stops at the commit, so `ok` is false only on a rollback.
- TrafficCheck.AliyunTrafficCheck.UpdateConfig: a throw in `loadConfig()` after the commit is not modelled, for the same reason. The source would return false with the new table committed.
- ConfigStore.ConfigManager.ReorderIds: its internal failure is one boolean. Which statement failed is not modelled, because the method catches and ignores the exception.
- Database exceptions outside `updateConfig` are not modelled. PDO throws on every failed statement (AliyunTrafficCheck.php:42), and nothing catches it in these places:
  - the UPDATEs of `monitor()` (AliyunTrafficCheck.php lines 360, 382, 403, 405 and 418);
  - the UPDATE of `refreshAccount` (line 278) and of `getStatusForFrontend` (line 469);
  - the upsert of `saveSetting` (line 110);
  - ConfigManager.php's `saveSetting` (line 57), `updateAccountStatus` (line 184) and `updateLastKeepAlive` (line 190).
- What that loses: a throw in `monitor()` ends the pass and skips the remaining accounts. The earlier accounts' UPDATEs stay committed, because `monitor()` runs no transaction. `TrafficCheck.AliyunTrafficCheck.Monitor` and `ReconcileAll` always finish every account.
- Reconcile.RefreshCachePolicy: the old `updated_at` after a failed fetch or an `Unknown` status is promised for the refresh UPDATE (the first write). It is also the row's final state only on a pass with no further action. The breaker (line 382), the keep-alive (line 405) and the schedule write (line 418) write the current time. So on such a pass the row's final `updated_at` advances even after a failed fetch; `Reconcile.ScenarioFailedFetchOverThreshold` shows this for 96 of 100 GB at a 95% threshold.
- TrafficCheck.AliyunTrafficCheck.RefreshAccount follows the code: it uses the first status query without the Unknown retry of `monitor`, and it stamps `updated_at` with now even when the query failed.

## Findings

| source | as written | input that shows it | evidently intended | confidence | as-written member | corrected member |
|---|---|---|---|---|---|---|
| ConfigManager.php:99-136 | `$existingMap` keeps one id per access key, and the delete only considers ids in `$existingMap`; an insert does not add its key to the map | rows `{1: "A", 2: "A"}` with `[]` submitted leave row 1 | every old row that was not kept is deleted | not executed | ConfigStore.SyncAsWritten | ConfigStore.Sync |

The as-written half is shown by `ConfigStore.AsWrittenKeepsShadowed` and `ConfigStore.ShadowedRowExample`. The corrected sync deletes every old row not kept. It is characterised by `ConfigStore.SyncKeepsOldRowIff`, and `ConfigStore.SyncAgreesWithoutDuplicates` shows that both agree when keys are unique. `ConfigStore.ConfigManager.Transaction` and `ConfigStore.ConfigManager.UpdateConfig` run the code as written (`ConfigStore.SyncAsWritten`); `ConfigStore.Sync` is the corrected reference. The correction concerns the delete only. A new key listed twice in one submission is inserted twice by either sync (`ConfigStore.UpsertInsertsTwice`), because the source has no rule for such a submission.
