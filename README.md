# Mantra counter: persistence and progress layer

A Dafny model of the browser-side library (`src/lib`) of a mantra-counting web app. Every
operation there reads and writes plain records in the browser's key-value store. The model
keeps that store as one object, `Storage.Store`, with one field per stored record:

- the mantra stats;
- the daily-record log;
- the journey milestones;
- the challenge completion status;
- the notification preferences;
- the user identity;
- the display settings.

The library's exported functions become methods on that store. Each method is proved
against a pure specification function of the old state, and the lemmas beside those
functions prove what the program promises.

The model covers five parts:

- **Stats and daily log** (`Stats`, `MantraStorage`). This part covers:
  - the day-rollover reconciliation of the stats record and its `practiceDays` backfill;
  - the increment, with the log kept newest first and cut to 30 records;
  - the six achievement thresholds;
  - the display settings;
  - the date-seeded daily mantra and quote.
- **Milestone tracker** (`Journey`, `SpiritualJourney`). This part covers:
  - the 9-entry catalog and the union-by-id migration of the stored list;
  - the clamped and rounded progress percentage and the permanent achieved flag;
  - the choice of the next milestone.
- **Challenge selector** (`Challenges`, `DailyChallenges`). This part covers:
  - the modulo pick over the 30-entry daily pool;
  - the month index into the 12 monthly challenges;
  - the single-slot daily and monthly completion markers.
- **Identity exchange** (`Identity`, `Codec`, `IdentityExchange`). This part covers:
  - the unique id with its check digit;
  - the 32-bit rolling checksum, as a loop and as a function;
  - the export package and the `OM-IDENTITY:` token;
  - the checksum gate before replace or merge;
  - the merge rules.
- **Notification preferences** (`Notifications`, `NotificationSystem`). This part covers:
  - shallow-merge updates and the daily permission-popup decision;
  - the rotating reminder message and the schedule match;
  - the 24-hour and 12-hour clock strings, which round-trip.

Shared helpers:

- `Text`: decimal and hexadecimal rendering, `padStart`, `split` and ASCII upper-casing.
- `Calendar`: Gregorian dates, the `YYYY-MM-DD` and `YYYY-MM` keys, whole-day differences and the day of the year.
- `Sorting`: the stable descending sort that `Array.prototype.sort` performs with the program's comparators.

The clock and the random sources are parameters:

- today's date, and the milliseconds since its midnight;
- the current hour and minute, and the current timestamp;
- today's `toDateString()` text;
- the word index and the number drawn for a new id.

The browser's notification service is reduced to three inputs:

- whether the service exists;
- the answer to a permission request;
- whether creating a notification throws.

Where the code and the documented behaviour of the app disagree, the model follows the code:

- **The streak never grows.** `getMantraStats` always sets `lastChantDate` to today before `updateMantraCount` compares it with today. So the streak-raising branch in `src/lib/mantra-storage.ts:85-89` never runs, and nothing else in the library raises the streak. The documented behaviour is that the streak grows on consecutive days. `Stats.UpdateCountEffect` proves the streak is never raised.
- **`practiceDays` and the log part ways.** The documented behaviour is that `practiceDays` equals the number of daily records. It holds only until the log reaches its 30-record cap; `Stats.PracticeDaysVersusLog` proves both halves.
- **The daily challenge moves each year.** The comment in `src/lib/daily-challenges.ts:353` says the same date gives the same challenge every year. The index in fact moves 5 places per year (`Challenges.YearShift`).
- **The day of the year starts at 1.** The comment in `src/lib/daily-challenges.ts:366` says the count runs from 0 to 365, but 1 January gives 1 (`Calendar.DayOfYearValue`).
- **An imported backup has no daily log.** `generateExportData` never fills `dailyRecords`, so importing a backup with "replace" writes an empty log (`Identity.ExportDataEffect`, `IdentityExchange.ApplyImportedIdentity`).

## Model

| member | source | states |
|---|---|---|
| MantraStorage.GetMantraStats | src/lib/mantra-storage.ts:34-75 | returns and stores `Reconcile` of the stored record: the initial record when none is stored, otherwise the rolled-over record with `practiceDays` backfilled from the log length |
| Stats.ReconcileEffect | src/lib/mantra-storage.ts:22-75 | without a stored record the result is all zero counters, no achievements, `practiceDays` 0 and today's date. After any read `lastChantDate` is today and `practiceDays` is present. Totals and achievements are kept. `todayCount` is reset exactly on a new date. The streak is cleared exactly when more than one day was skipped, and kept otherwise. A missing `practiceDays` becomes the record count and a present one is kept |
| Stats.ReconcileIdempotent | src/lib/mantra-storage.ts:44-72 | reading again on the same day returns the stored record unchanged |
| Calendar.DaysDiff | src/lib/mantra-storage.ts:48-52 | the day difference is defined exactly when the stored date is a real date; otherwise it is NaN |
| Calendar.DaysDiffValue | src/lib/mantra-storage.ts:48-52 | the floored millisecond difference between two midnights is exactly the difference of their day numbers |
| Calendar.DaysDiffOneIffNextDay | src/lib/mantra-storage.ts:54-55 | a gap of exactly one day holds if and only if today is the calendar day after the last chant |
| Calendar.DaysDiffAboveOneIffLater | src/lib/mantra-storage.ts:56-58 | a gap above one day holds if and only if today is after the day following the last chant |
| Calendar.DayNumberOrder | src/lib/mantra-storage.ts:111-113 | the `getTime()` order of midnights is the calendar order of dates, and equal times mean equal dates |
| Calendar.NextDayNumber | src/lib/mantra-storage.ts:51-55 | the next calendar day is a valid date exactly one day later |
| Calendar.DateKeyInjective | src/lib/mantra-storage.ts:16-19 | two dates have the same `YYYY-MM-DD` key if and only if they are the same date |
| Calendar.DateKeyLayout | src/lib/mantra-storage.ts:16-19 | the date key has 10 characters: four-digit year, dash, two-digit month, dash, two-digit day |
| MantraStorage.UpdateMantraCount | src/lib/mantra-storage.ts:81-129 | returns and stores `UpdatedStats` of the old record and log. Stores `LogAfterIncrement` of the old log. Stores the milestones updated with the new total, streak and practice days |
| Stats.UpdateCountEffect | src/lib/mantra-storage.ts:81-108 | both counters grow by exactly `n`, today's from 0 on a new date. The streak is the rolled-over one and never raised. `practiceDays` grows by one exactly when today had no record. Achievements are only appended |
| Stats.PracticeDaysVersusLog | src/lib/mantra-storage.ts:98-113 | `practiceDays` equals the stored log length while the log is under 30 records. On the 31st practice day it is 31 while the log stays at 30 |
| Stats.FindDate | src/lib/mantra-storage.ts:96 | finds the first record dated today, or reports that none is |
| Stats.BumpShape | src/lib/mantra-storage.ts:95-108 | with a record for today only that record changes, its count grows by `n`. Without one, `{today, n}` is appended and nothing else changes |
| Stats.BumpDistinct | src/lib/mantra-storage.ts:95-108 | bumping keeps the dates valid and pairwise distinct |
| Stats.LogAfterIncrementBounded | src/lib/mantra-storage.ts:110-113 | the stored log is ordered newest first and holds at most 30 records |
| Stats.LogAfterIncrementValid | src/lib/mantra-storage.ts:95-115 | from a valid log (valid dates, strictly newest first, at most 30) the stored log is valid again, so dates stay unique |
| Stats.LogKeepsMostRecent | src/lib/mantra-storage.ts:110-113 | a record cut by the cap is no newer than any record kept |
| Stats.LogRecordsPreserved | src/lib/mantra-storage.ts:95-113 | every stored record dated another day comes unchanged from the old log. Today's record holds the old count plus `n` |
| Stats.LogOnNewDay | src/lib/mantra-storage.ts:98-113 | on a new date after every logged one, the stored log is `{today, n}` followed by the 29 newest older records |
| Sorting.SortDesc | src/lib/mantra-storage.ts:111-113 | the sort returns a permutation of its input |
| Sorting.SortDescSorted | src/lib/mantra-storage.ts:111-113 | the sorted sequence is ordered, largest key first |
| Sorting.SortDescStrict | src/lib/mantra-storage.ts:111-113 | with distinct keys the sorted order is strict |
| Sorting.SortKeepsSorted | src/lib/mantra-storage.ts:111-113 | an already ordered sequence is left as it is (the sort is stable) |
| Sorting.SortNewestToFront | src/lib/mantra-storage.ts:111-113 | an element newer than every element of an ordered log is sorted to the front and the rest keep their order |
| Sorting.SortDescHead | src/lib/spiritual-journey.ts:173-177 | the head of the sort is an element with the largest key, and the earliest such |
| MantraStorage.GetDailyRecords | src/lib/mantra-storage.ts:132-135 | returns the stored log; a missing log reads as empty |
| MantraStorage.CheckAchievements | src/lib/mantra-storage.ts:138-176 | returns the new tags `NewAchievements(stats)` and the record with them appended. Stores it only when there is a new tag; with none the record is returned and stored as it was |
| MantraStorage.CheckRule | src/lib/mantra-storage.ts:142-144 | one threshold test appends the rule's tag exactly when the threshold holds and the tag is absent |
| Stats.NewAchievementsUnrolled | src/lib/mantra-storage.ts:141-165 | the unlocked tags are the six threshold tests in the order of the code |
| Stats.UnlockedExactly | src/lib/mantra-storage.ts:141-165 | a tag is unlocked if and only if it is absent and some rule with that tag reaches its threshold |
| Stats.NewAchievementsExactly | src/lib/mantra-storage.ts:141-165 | the same for the program's six rules: 108, 1008 and 10008 total, 7, 21 and 108 streak |
| Stats.UnlockedNone | src/lib/mantra-storage.ts:167-175 | when every reached tag is already held, nothing is unlocked |
| Stats.AchievementsIdempotent | src/lib/mantra-storage.ts:138-176 | a second check on the updated record unlocks nothing |
| MantraStorage.GetSettings | src/lib/mantra-storage.ts:179-190 | the stored settings, or the defaults when none are stored |
| MantraStorage.UpdateSettings | src/lib/mantra-storage.ts:193-198 | stores the current settings overridden by exactly the given keys |
| Stats.ApplySettingsIdempotent | src/lib/mantra-storage.ts:193-198 | saving the same update twice stores what saving it once stores |
| Stats.ApplySettingsCompose | src/lib/mantra-storage.ts:193-198 | two updates in a row equal one update in which the later keys win |
| Stats.SplitDateKey | src/lib/mantra-storage.ts:242-243 | splitting the date key at dashes gives the padded year, month and day |
| Stats.DateSeedValue | src/lib/mantra-storage.ts:241-243 | the seed is year + month + day |
| Stats.ContentForSeedIndices | src/lib/mantra-storage.ts:245-251 | the mantra is entry `seed mod 5` of the five and the quote entry `13 seed mod 7` of the seven |
| Stats.DailyContentChoice | src/lib/mantra-storage.ts:201-252 | the daily content depends only on the date, through year + month + day |
| Journey.CatalogWellFormed | src/lib/spiritual-journey.ts:15-70 | the catalog has 9 entries with distinct ids, each setting exactly one positive requirement |
| SpiritualJourney.GetUserJourneyMilestones | src/lib/spiritual-journey.ts:73-105 | returns and leaves stored `Migrated` of the stored list |
| Journey.MissingAll | src/lib/spiritual-journey.ts:77-83 | with no stored ids every catalog entry is added fresh, in catalog order |
| Journey.FirstAccess | src/lib/spiritual-journey.ts:77-84 | the first read stores all 9 catalog entries, not achieved and at progress 0 |
| Journey.MissingExactly | src/lib/spiritual-journey.ts:88-96 | the appended milestones are exactly the fresh copies of the catalog entries whose id is not stored |
| Journey.MissingNone | src/lib/spiritual-journey.ts:88-101 | nothing is appended if and only if every catalog id is stored |
| Journey.CoveredAfter | src/lib/spiritual-journey.ts:88-101 | after the append every catalog id is present |
| Journey.MigratedKeepsStored | src/lib/spiritual-journey.ts:85-101 | the stored list is kept unchanged in front. Only fresh entries for missing ids follow, and afterwards every catalog id is present |
| Journey.MigratedIdempotent | src/lib/spiritual-journey.ts:73-105 | a migrated list gains nothing on the next read |
| Journey.Migrated | src/lib/spiritual-journey.ts:73-105 | the stored list followed by fresh entries for the missing catalog ids. It has no contract of its own: `Journey.MigratedKeepsStored`, `Journey.FirstAccess` and `Journey.MigratedIdempotent` state its properties |
| SpiritualJourney.ProgressAll | src/lib/spiritual-journey.ts:116-157 | the loop over the milestones computes `UpdatedAll` and `NewlyAchieved` of the list |
| SpiritualJourney.UpdateMilestoneProgress | src/lib/spiritual-journey.ts:108-166 | returns and stores the updated migrated list, and returns the milestones that flipped |
| Journey.ZeroPracticeDaysFallsBack | src/lib/spiritual-journey.ts:120 | `practiceDays` 0 counts as missing: both use `min(totalCount / 10, streak)` |
| Journey.RatioFull | src/lib/spiritual-journey.ts:128 | at or past the requirement the percentage is exactly 100 |
| Journey.RatioBelowFull | src/lib/spiritual-journey.ts:128-155 | below the requirement the rounded percentage of `a` out of `b` is `(200 a + b) div 2 b` |
| Journey.RatioIsIntegerFormula | src/lib/spiritual-journey.ts:127-156 | the rounded, clamped percentage equals the integer formula, 100 at or above the requirement |
| Journey.RatioBounds | src/lib/spiritual-journey.ts:128-155 | the rounded percentage lies in 0..100 and is 100 exactly from 99.5 % of the requirement on |
| Journey.UpdatedProgress | src/lib/spiritual-journey.ts:122-157 | progress is always in 0..100. It follows the first truthy requirement by the integer formula, and is 0 with no requirement. A reached requirement gives exactly 100 |
| Journey.UpdatedAllShape | src/lib/spiritual-journey.ts:122-157 | the update keeps length, order, ids and requirements. The flag is set if and only if it was set or the requirement is met, so it never goes back. Progress stays in 0..100 |
| Journey.NewlyAchievedExactly | src/lib/spiritual-journey.ts:117-150 | a milestone is in `newlyAchieved` if and only if it is the update of a milestone whose flag flipped, and each one is achieved at 100 |
| Journey.NewlyAchievedInOrder | src/lib/spiritual-journey.ts:117-150 | `newlyAchieved` has one entry per flipped milestone, in list order. Entry `k` is the updated milestone at the `k`-th flipping position. The positions increase strictly, and they are exactly the positions that flip |
| Journey.NoneNewlyAchieved | src/lib/spiritual-journey.ts:117-150 | when no flag flips, `newlyAchieved` is empty |
| Journey.SecondUpdateNothingNew | src/lib/spiritual-journey.ts:108-166 | a second update with the same stats reports nothing new |
| SpiritualJourney.GetNextMilestone | src/lib/spiritual-journey.ts:169-178 | returns `NextMilestone` of the migrated list and stores that list |
| Journey.UnachievedExactly | src/lib/spiritual-journey.ts:173-174 | the filter keeps exactly the unachieved milestones |
| Journey.NextMilestoneChoice | src/lib/spiritual-journey.ts:169-178 | null if and only if all are achieved. Otherwise an unachieved milestone with the highest progress, the earliest such in list order |
| Journey.NextMilestone | src/lib/spiritual-journey.ts:169-178 | null if and only if no milestone is unachieved, and otherwise an unachieved one; which one is stated in `Journey.NextMilestoneChoice` |
| SpiritualJourney.CalculateTotalPracticeDays | src/lib/spiritual-journey.ts:181-187 | the number of stored daily records, 0 when none are stored |
| Challenges.TodayIndex | src/lib/daily-challenges.ts:355-356 | the pool index is always inside the 30-entry pool |
| Challenges.TodayIndexOfDate | src/lib/daily-challenges.ts:348-359 | the index is `(dayOfYear + 5 year) mod 30`, whatever the time of day |
| Challenges.TodayChallenge | src/lib/daily-challenges.ts:347-359 | the pick is an entry of the daily pool; which entry is stated in `Challenges.TodayChallengeChoice` |
| Challenges.TodayChallengeChoice | src/lib/daily-challenges.ts:348-359 | the challenge depends only on the date and is pool entry `(dayOfYear + 5 year) mod 30` |
| Challenges.YearShift | src/lib/daily-challenges.ts:353-356 | one year later the same day of the year moves 5 places, so it is never the same pool position. The picks repeat every 6 years |
| Calendar.DayOfYearValue | src/lib/daily-challenges.ts:368-373 | the day of the year is the days before the month plus the day: 1 January gives 1, 31 December gives 365 or 366 |
| Challenges.MonthlyTagged | src/lib/daily-challenges.ts:245-365 | the 12 monthly entries are tagged 0..11 in order, and the pick for a date is the entry tagged with its month |
| Challenges.MonthlyChallengeOf | src/lib/daily-challenges.ts:361-365 | the pick is an entry of the monthly list; that it is this month's is stated in `Challenges.MonthlyTagged` |
| Calendar.MonthKey | src/lib/daily-challenges.ts:390 | the month key has 7 characters |
| Calendar.MonthKeySameMonth | src/lib/daily-challenges.ts:389-393 | two dates share a month key if and only if they fall in the same month of the same year |
| DailyChallenges.GetChallengeStatus | src/lib/daily-challenges.ts:412-415 | the stored status, or one with no markers when none is stored |
| Challenges.EmptyStatusNothingDone | src/lib/daily-challenges.ts:382-393 | with nothing stored neither challenge counts as completed |
| DailyChallenges.IsDailyChallengeCompleted | src/lib/daily-challenges.ts:382-386 | true if and only if the daily marker is today's date key |
| DailyChallenges.IsMonthlyCompleted | src/lib/daily-challenges.ts:389-393 | true if and only if the monthly marker is this month's key |
| DailyChallenges.CompleteDailyChallenge | src/lib/daily-challenges.ts:396-401 | stores the status with the daily marker set to today's key and nothing else changed |
| DailyChallenges.CompleteMonthlyChallenge | src/lib/daily-challenges.ts:404-409 | stores the status with the monthly marker set to this month's key and nothing else changed |
| Challenges.CompleteDailyEffect | src/lib/daily-challenges.ts:382-401 | after completing, the daily check is true exactly on that day. The monthly marker is untouched, and repeating the completion changes nothing |
| Challenges.CompleteMonthlyEffect | src/lib/daily-challenges.ts:389-409 | after completing, the monthly check is true exactly in that month of that year. The daily marker is untouched, and repeating it changes nothing |
| Identity.IdPrefixShape | src/lib/user-identity.ts:40-42 | the prefix is 1 to 3 letters A-Z: the start of the upper-cased name's letters, or "OM" |
| Identity.GeneratedIdLayout | src/lib/user-identity.ts:39-55 | the id splits at its dashes into the prefix, the drawn word and four digits. The digits are the drawn number and its check digit, so the id passes the digit check |
| Identity.GenerateUniqueId | src/lib/user-identity.ts:39-55 | the id starts with the name's prefix and a dash; its full layout and check digit are stated in `Identity.GeneratedIdLayout` |
| Identity.Int32 | src/lib/user-identity.ts:120 | the wrap-around lands in the signed 32-bit range and is congruent to its input modulo 2^32 |
| Identity.ShiftStep | src/lib/user-identity.ts:119-120 | one step as written, `((h << 5) - h) + c` then `& h`, is `int32(31 h + c)` |
| Identity.Hash | src/lib/user-identity.ts:114-121 | the rolling hash stays in the signed 32-bit range |
| Identity.HashIsWrappedPoly | src/lib/user-identity.ts:116-121 | wrapping at every step equals wrapping the whole polynomial once |
| Identity.CalculateChecksum | src/lib/user-identity.ts:114-123 | the loop computes `Checksum`: the hex of the absolute hash of id, creation date and total count |
| Identity.ChecksumIsWholeHex | src/lib/user-identity.ts:122 | the checksum has 1 to 8 hex digits, so the cut to 8 never removes anything |
| Identity.HexInjective | src/lib/user-identity.ts:122 | different numbers have different hex renderings |
| Identity.ChecksumSeparates | src/lib/user-identity.ts:114-123 | inputs whose absolute hashes differ get different checksums |
| Identity.ExportDataEffect | src/lib/user-identity.ts:94-111 | fails with "No user identity found" exactly when no identity is stored. Otherwise the package has the identity, the stats, version "1.0" and no daily records, and passes the checksum gate |
| IdentityExchange.GenerateExportData | src/lib/user-identity.ts:94-111 | returns `ExportData` of the stored identity and the freshly read stats. The read stores the reconciled stats even when the export fails |
| IdentityExchange.ExportIdentityToText | src/lib/user-identity.ts:126-129 | the token is the prefix and the encoded package. A token it returns imports back to a package that passes the checksum gate |
| IdentityExchange.ExportedTokenAccepted | src/lib/user-identity.ts:126-156 | exporting with an identity succeeds, and importing the token gives back the same package, which passes the checksum gate |
| Codec.DecodeEncode | src/lib/user-identity.ts:128-149 | decoding an encoded package gives the package back |
| Codec.ImportExport | src/lib/user-identity.ts:144-156 | importing an exported token gives the package. A text without "OM-IDENTITY:" gives nothing. A text with it is decoded from its 13th character on |
| Codec.ExportToText | src/lib/user-identity.ts:125-128 | the token starts with "OM-IDENTITY:" |
| Codec.ImportFromText | src/lib/user-identity.ts:143-156 | a text only imports when it starts with "OM-IDENTITY:"; the round trip is stated in `Codec.ImportExport` |
| IdentityExchange.SaveUserIdentity | src/lib/user-identity.ts:58-60 | stores the identity |
| IdentityExchange.GetUserIdentity | src/lib/user-identity.ts:63-66 | the stored identity, or none |
| IdentityExchange.HasUserIdentity | src/lib/user-identity.ts:69-71 | true if and only if an identity is stored |
| IdentityExchange.UpdateSpiritualName | src/lib/user-identity.ts:74-81 | changes only the name of a stored identity; nothing without one |
| IdentityExchange.UpdateSpiritualSymbol | src/lib/user-identity.ts:84-91 | changes only the symbol of a stored identity; nothing without one |
| IdentityExchange.ApplyImportedIdentity | src/lib/user-identity.ts:181-196 | succeeds if and only if the checksum matches. Then it stores the identity, the stats and the package's daily records, or an empty log. On a mismatch it fails with "Invalid identity data (checksum mismatch)" and writes nothing |
| IdentityExchange.MergeImportedIdentity | src/lib/user-identity.ts:199-222 | succeeds if and only if the checksum matches. Then it stores `MergeStats` of the freshly read stats and the imported ones, and the identity and log are untouched. On a mismatch it fails and writes nothing |
| Identity.MergeStatsEffect | src/lib/user-identity.ts:210-218 | merging gives: the larger today count and streak; the summed totals and practice days, a missing count as 0; the current last chant date; and the achievements united without duplicates. The deduplicated current list comes first, and a current list without repeats comes first unchanged |
| Identity.MergeStats | src/lib/user-identity.ts:210-218 | the merged achievements never repeat a tag; the other fields are stated in `Identity.MergeStatsEffect` |
| Identity.DedupExactly | src/lib/user-identity.ts:216 | `[...new Set(s)]` holds each element of `s` exactly once |
| Identity.DedupOfDistinct | src/lib/user-identity.ts:216 | a list without duplicates is its own deduplication |
| Identity.DedupKeepsPrefix | src/lib/user-identity.ts:216 | deduplicating `a + b` keeps the deduplication of `a` in front |
| IdentityExchange.ResetUserIdentity | src/lib/user-identity.ts:225-230 | removes the identity, the stats and the daily records |
| NotificationSystem.GetNotificationPreferences | src/lib/notification-system.ts:48-65 | the stored preferences, or the defaults (pending, one reminder) |
| NotificationSystem.SaveNotificationPreferences | src/lib/notification-system.ts:68-73 | stores and returns the current preferences overridden by exactly the given keys |
| Notifications.ApplyPatchLaws | src/lib/notification-system.ts:68-73 | saving an update twice equals saving it once. Two updates compose with the later keys winning. An update without keys changes nothing |
| NotificationSystem.RequestNotificationPermission | src/lib/notification-system.ts:76-92 | without a notification service, or when the request throws, it answers denied and stores nothing. Otherwise it returns the answer and stores it with the time of asking |
| NotificationSystem.ShouldShowDailyPermissionPopup | src/lib/notification-system.ts:95-110 | the popup decision on the current preferences |
| NotificationSystem.MarkPermissionPopupShown | src/lib/notification-system.ts:113-116 | stores today's text as the last popup date |
| Notifications.PopupDecision | src/lib/notification-system.ts:95-116 | the popup shows if and only if permission is denied or pending, the popup is not switched off, and it was not shown today. After marking it shown it does not show again that day. With permission in the browser's default state it never shows |
| NotificationSystem.SendTestNotification | src/lib/notification-system.ts:119-142 | true if and only if permission is granted and the notification can be created |
| NotificationSystem.SendReminderNotification | src/lib/notification-system.ts:145-186 | returns what `SendReminder` sends and shows. Stores its new preferences only when it sent |
| Notifications.Messages | src/lib/notification-system.ts:154-159 | the morning or evening rotation has 14 messages |
| Notifications.MessagePosition | src/lib/notification-system.ts:161 | the position is always inside the 14-message rotation |
| Notifications.ReminderRotation | src/lib/notification-system.ts:145-186 | without permission or when creating fails, nothing is sent or stored. Otherwise the message at `messageIndex mod 14` is shown, and the stored index becomes that position plus one, in 1..14. The next reminder of either kind shows the following message |
| NotificationSystem.CheckNotificationSchedule | src/lib/notification-system.ts:189-210 | the stored preferences become `CheckSchedule` of the old ones; with nothing stored nothing is written |
| Notifications.ScheduleEffect | src/lib/notification-system.ts:189-210 | without permission or when notifications fail nothing changes. Otherwise: the morning reminder alone, the evening reminder alone, or both in turn, exactly as the time string matches `morningTime` and (with two reminders) `eveningTime`. No match changes nothing |
| Notifications.FormatValid | src/lib/notification-system.ts:213-220 | a valid `HH:MM` displays as hour mod 12 (0 as 12), two-digit minutes and "PM" exactly from noon on |
| Notifications.FormatTimeForDisplay | src/lib/notification-system.ts:213-220 | the 12-hour display text. It has no contract of its own: `Notifications.FormatValid` and `Notifications.DisplayRoundTrip` state its properties |
| Notifications.ShownRoundTrip | src/lib/notification-system.ts:223-234 | converting the display of an hour 0..23 back gives that hour and minute, zero-padded |
| Notifications.ConvertDisplay | src/lib/notification-system.ts:223-234 | "PM" adds 12 to an hour other than 12, "AM" turns 12 into 0, and the result is zero-padded |
| Notifications.ConvertTo24HourFormat | src/lib/notification-system.ts:223-234 | back to zero-padded `HH:MM`. It has no contract of its own: `Notifications.ConvertDisplay` and `Notifications.DisplayRoundTrip` state its properties |
| Notifications.HalfDay | src/lib/notification-system.ts:216-217 | the shown hour and period give back the hour 0..23 |
| Notifications.DisplayRoundTrip | src/lib/notification-system.ts:213-234 | for every valid `HH:MM`, converting its display back gives the same string |
| Notifications.ClockParts | src/lib/notification-system.ts:233 | a valid `HH:MM` is the zero-padded rendering of its own hour and minute |
| Text.DecimalRoundTrip | src/lib/mantra-storage.ts:243 | `parseInt` of a decimal rendering gives the number back |
| Text.PaddedRoundTrip | src/lib/mantra-storage.ts:243 | `parseInt` of a zero-padded rendering gives the number back |
| Text.PaddedInjective | src/lib/mantra-storage.ts:18 | two numbers with the same padded rendering are equal |
| Text.PaddedLength | src/lib/mantra-storage.ts:18 | a number below 10^w pads to exactly w digits |
| Text.TwoDigitsArePadded | src/lib/notification-system.ts:233 | any two-digit string is the zero-padded rendering of its own value |
| Text.SplitNoSeparator | src/lib/mantra-storage.ts:243 | a string without the separator splits into itself alone |
| Text.SplitAtFirst | src/lib/mantra-storage.ts:243 | splitting at the first separator gives the part before it, then the split of the rest |
| Text.PadStart | src/lib/notification-system.ts:219 | `padStart` keeps the string at the end and fills only the front, up to the width |
| Text.KeepUpperLetters | src/lib/user-identity.ts:41 | the kept characters are all letters A-Z, no more than the input |

## Left out

- Storage is in memory. `localStorage`, `JSON.stringify` and `JSON.parse` are not modelled, and neither are stored texts that fail to parse or records whose fields have the wrong types.
- The transfer token's base64-encoded JSON is replaced by a length-prefixed text format with a proved round trip (`Codec`). `btoa` throwing on names outside Latin-1 is not modelled, and neither is `atob`/`JSON.parse` failing on text that is not base64 or JSON. Decoding returns nothing in those cases, as the `catch` does.
- `exportIdentityToFile` and `importIdentityFromFile` are not modelled: they are DOM downloads and `FileReader` I/O. `generateQRCode`, toasts, sounds and `window.location.reload` in reset are also out.
- The Notification API is reduced to three inputs: its presence, the permission answer, and whether construction throws. `onclick`/`window.focus` are not modelled. `initializeNotificationSystem` is not modelled: it only starts a one-minute `setInterval` around the schedule check.
- The clock is a parameter. Time zones, daylight saving, and the difference between the UTC date of `toISOString` and the local date of `getDayOfYear`/`getHours` are not modelled: one date is taken for all of them. `Date.now()` is the `now` argument and `toDateString()` is the `todayText` argument. `Math.random` in `generateUniqueId` is the word index and number arguments.
- Milestone percentages are exact rationals, not IEEE doubles. `totalCount / 10` and `ratio * 100` are computed without rounding error.
- `toUpperCase` is modelled on ASCII letters only. Other characters are kept, which matters only for the letters A-Z filter. Strings are sequences of characters, not UTF-16 code units, so `charCodeAt` of a character outside the basic plane is not modelled.
- Counts, totals and streaks are natural numbers. Negative or fractional counts passed to `updateMantraCount` are not modelled.
- Imported stats are full records. An imported record missing fields other than `practiceDays` (the `|| 0` and `|| []` fallbacks of the merge) is not modelled.
- `Array.prototype.sort` is modelled by a stable insertion sort on sequences, not in place on an array.
- Calendar.DaysDiff: a stored `lastChantDate` that is not a real date gives NaN. That is `None`, and no other malformed text is modelled, because the stored date is always a `Date`.
- DailyChallenges.IsDailyChallengeCompleted: requires a year of at most four digits. `toISOString` writes larger years as `+YYYYYY`, and that format is not modelled.
- DailyChallenges.IsMonthlyCompleted: requires a year of at most four digits, for the same reason.
- DailyChallenges.CompleteDailyChallenge: requires a year of at most four digits, for the same reason.
- DailyChallenges.CompleteMonthlyChallenge: requires a year of at most four digits, for the same reason.
- Stats.DailyContentChoice: requires a year of at most four digits, for the same reason.
- MantraStorage.GetMantraStats: requires today to be a real date from year 1 on. The clock always gives one, but years before 1 are not modelled.
- MantraStorage.UpdateMantraCount: requires today to be a real date from year 1 on, for the same reason.
- IdentityExchange.GenerateExportData: requires today to be a real date from year 1 on, for the same reason.
- IdentityExchange.ExportIdentityToText: requires today to be a real date from year 1 on, for the same reason.
- IdentityExchange.MergeImportedIdentity: requires today to be a real date from year 1 on, for the same reason.
- Challenges.TodayChallengeChoice: the pool is given in full, but that its 30 ids are distinct is not stated. Proving it over the 30-entry literal is too costly for the verifier.
- Challenges.YearShift: proves that the pool position moves each year, not that the challenge itself differs. That would need the distinct ids, which are not stated, as above.
- Notifications.FormatTimeForDisplay: requires a time with a ':' and digits on both sides. Without a ':' the source throws a TypeError, because `minutes` is undefined. With other characters it renders NaN, as in "12:NaN AM". Neither case is modelled.
- Notifications.ConvertTo24HourFormat: requires the part before the space to have a ':' and digits on both sides. Without a ':' the source throws a TypeError, and other characters give NaN text. Neither case is modelled.
