# Plant watering reminders — a Dafny model

The app keeps a list of plants. Each plant carries a watering schedule, written as display text ("Every 2 days", "Once a week", …), and a "watered today" flag. This project models two parts of the app:

- **The plant store** (`PlantStore`). It holds the ordered plant list. It computes today's progress (the share of plants watered). It adds plants, toggles one plant's flag by id, and clears every flag for a new day.
- **The notification manager** (`NotificationManager`):
  - It parses a schedule text into a `WateringSchedule`.
  - It builds the one time-interval notification request for that schedule. The request's identifier is `plant.<uuid>.<suffix>`, and its title and body name the plant.
  - It cancels a plant's requests by removing a fixed list of twelve identifiers.
  - It reschedules a plant by cancelling and then adding.
  - It schedules two test reminders.

The system notification center is modelled as a table of pending requests keyed by identifier. Adding a request replaces any pending request with the same identifier. Removing a list of identifiers drops those that are pending.

The project has four modules:

- `Text` (`text.dfy`) holds the string operations the parser relies on: lower-casing, trimming, `contains`, `hasPrefix`, replacing, splitting, and converting 64-bit `Int` values to and from text. It also holds a small `Option` type in the module `Wrappers`.
- `Plants` (`plants.dfy`) holds the `Plant` record and the `PlantStore` class. The class has a `plants` sequence field that its methods reassign.
- `Schedule` (`schedule.dfy`) holds schedule parsing, request building and identifiers.
- `Notifications` (`notifications.dfy`) holds:
  - the `NotificationCenter` class, whose `pending` map field its methods update;
  - the manager's operations, as methods that take the center;
  - the specification functions those methods are proved against.

## Model

| member | source | states |
|---|---|---|
| Text.Lower | plant_midapp/NotificationManager.swift:160 | lower-casing keeps the length and maps each character with `LowerChar` (A–Z to a–z, everything else unchanged) |
| Text.LowerAppend | plant_midapp/NotificationManager.swift:160 | lower-casing distributes over concatenation |
| Text.LowerIdempotent | plant_midapp/NotificationManager.swift:160 | lower-casing twice is lower-casing once |
| Text.IsWhitespace | plant_midapp/NotificationManager.swift:160 | defined by its body: the eight characters taken for `.whitespacesAndNewlines` (see "## Left out"); described by `Text.TrimStart`, `Text.TrimEnd` and `Text.Trim` |
| Text.TrimStart | plant_midapp/NotificationManager.swift:160 | the result is a suffix of the input; everything dropped is whitespace; the result is empty or starts with a non-whitespace character |
| Text.TrimEnd | plant_midapp/NotificationManager.swift:160 | the result is a prefix of the input; everything dropped is whitespace; the result is empty or ends with a non-whitespace character |
| Text.Trim | plant_midapp/NotificationManager.swift:160 | the trimmed text is a slice of the input with only whitespace before and after it, and is empty or neither starts nor ends with whitespace |
| Text.TrimPadded | plant_midapp/NotificationManager.swift:160 | whitespace added before and after a text does not change its trimmed form |
| Text.TrimmedAlready | plant_midapp/NotificationManager.swift:160 | a text whose first and last characters are not whitespace is its own trimmed form |
| Text.HasPrefix | plant_midapp/NotificationManager.swift:179 | defined by its body (the text starts with the prefix); used by `Schedule.PrefixOfAppend` and `Schedule.TokenTextShape` |
| Text.Contains | plant_midapp/NotificationManager.swift:170-179 | defined by its body (the pattern occurs at some offset); described by `Text.ContainsChars`, `Text.MissingChar` and `Schedule.ContainsAt` |
| Text.ContainsChars | plant_midapp/NotificationManager.swift:170-179 | if `s` contains `t`, every character of `t` occurs in `s` |
| Text.MissingChar | plant_midapp/NotificationManager.swift:162-179 | a text lacking one character of a literal neither equals nor contains that literal |
| Text.ReplaceAll | plant_midapp/NotificationManager.swift:180-183 | defined by its body (non-overlapping occurrences from the left; an empty pattern changes nothing); described by `Text.ReplaceAllSkip` and `Text.ReplaceAllShort` |
| Text.ReplaceAllSkip | plant_midapp/NotificationManager.swift:180-183 | replacement leaves a leading part that cannot start the pattern unchanged |
| Text.Word | plant_midapp/NotificationManager.swift:184 | the first word is the longest prefix free of the separator, and is non-empty when the text does not start with the separator |
| Text.Split | plant_midapp/NotificationManager.swift:184 | every part is non-empty and free of the separator (empty parts are omitted); there are no parts exactly when the text is all separators; when the text does not start with the separator, the first part is its first word; the parts joined together give the text with every separator removed (`Concat`, `Without`) |
| Text.SplitSep | plant_midapp/NotificationManager.swift:184 | splitting a text at one separator is splitting each side and joining the lists; with `Split([]) == []` and `Text.SplitSingle` this fixes the parts of every text |
| Text.SplitSingle | plant_midapp/NotificationManager.swift:184 | a non-empty text without the separator splits into itself |
| Text.NatToString | plant_midapp/NotificationManager.swift:129 | the decimal text is non-empty digits whose value is the number, with no leading zero except for 0 itself, which is written "0" |
| Text.ParseInt | plant_midapp/NotificationManager.swift:185 | `Int(_:)` succeeds exactly when the text is an optional sign followed by at least one digit (`IntSyntax`) and the value it denotes is in the 64-bit range, and then returns that value (`SyntaxValue`); otherwise it gives nothing |
| Text.IntToString | plant_midapp/NotificationManager.swift:129 | "\(n)" is non-empty; digits for n >= 0, and a minus sign followed by digits for n < 0 |
| Text.ParseIntRoundTrip | plant_midapp/NotificationManager.swift:129 | reading back the decimal text of any 64-bit `Int` gives the same number |
| Text.IntToStringInjective | plant_midapp/NotificationManager.swift:129 | different numbers have different decimal texts |
| Text.DigitsValueZeroPrefix | plant_midapp/NotificationManager.swift:185 | a leading zero does not change the value of a digit string |
| Plants.Watered | plant_midapp/PlantStore.swift:36 | the filter keeps only watered plants, drawn from the list, and keeps all of them exactly when every plant is watered |
| Plants.WateredKeepsAll | plant_midapp/PlantStore.swift:36 | the filter keeps every watered plant as often as it occurs and drops every other plant (as multisets) |
| Plants.ProgressOf | plant_midapp/PlantStore.swift:34-38 | defined by its body (0 for no plants, otherwise watered count over plant count); described by `Plants.ProgressInRange` and `Plants.ProgressFullIff` |
| Plants.ProgressInRange | plant_midapp/PlantStore.swift:33-38 | progress always lies in [0, 1] |
| Plants.ProgressFullIff | plant_midapp/PlantStore.swift:34-38 | progress reaches 1 exactly when the list is non-empty and every plant is watered |
| Plants.ProgressTwoOfThree | plant_midapp/PlantStore.swift:34-38 | two watered plants out of three give progress 2/3 |
| Plants.FirstIndex | plant_midapp/PlantStore.swift:45 | `firstIndex(where:)` is absent exactly when no plant has the id, and otherwise is the first plant with it |
| Plants.Toggled | plant_midapp/PlantStore.swift:44-47 | defined by its body (flip the flag of the first match, if any); described by `Plants.ToggleAbsent`, `Plants.TogglePresent` and `Plants.ToggleTwice` |
| Plants.ToggleAbsent | plant_midapp/PlantStore.swift:44-47 | toggling an unknown id changes nothing |
| Plants.TogglePresent | plant_midapp/PlantStore.swift:44-47 | toggling flips the flag of the first plant with the id and changes no other field and no other plant |
| Plants.ToggleTwice | plant_midapp/PlantStore.swift:44-47 | toggling the same id twice restores the list |
| Plants.ResetAll | plant_midapp/PlantStore.swift:50-54 | defined by its body (every flag false); described by `Plants.ResetClears`, `Plants.ResetIdempotent` and `Plants.ResetProgressZero` |
| Plants.ResetClears | plant_midapp/PlantStore.swift:50-54 | the reset clears every flag and keeps the length, the order and every other field |
| Plants.ResetIdempotent | plant_midapp/PlantStore.swift:50-54 | resetting twice is resetting once |
| Plants.ResetProgressZero | plant_midapp/PlantStore.swift:50-54 | after the reset no plant is watered and progress is 0 |
| Plants.PlantStore.constructor | plant_midapp/PlantStore.swift:31 | a new store holds no plants |
| Plants.PlantStore.Progress | plant_midapp/PlantStore.swift:34-38 | `progress` is the watered share of the current list, within [0, 1] |
| Plants.PlantStore.Add | plant_midapp/PlantStore.swift:40-42 | the plant is appended and nothing else changes |
| Plants.PlantStore.ToggleWatered | plant_midapp/PlantStore.swift:44-47 | the new list is the toggled old list |
| Plants.PlantStore.ResetTodayWatering | plant_midapp/PlantStore.swift:50-54 | the loop leaves the list equal to the reset of the old list |
| Schedule.Normalize | plant_midapp/NotificationManager.swift:160 | defined by its body (lower-case, then trim); described by `Schedule.ParseIgnoresCaseAndPadding` and `Schedule.PatternTextNormalizes` |
| Schedule.EveryNDaysPattern | plant_midapp/NotificationManager.swift:179-187 | defined by its body; described by `Schedule.PatternReadsToken` (reads any number token as its value) and `Schedule.EveryWordDaysPattern` (a number written as a word is not read) |
| Schedule.ExplicitDays | plant_midapp/NotificationManager.swift:191-197 | defined by its body; described by `Schedule.ExplicitCasesRedundant` |
| Schedule.ParseNormalized | plant_midapp/NotificationManager.swift:162-197 | the branch chain on the normalised text; a parsed `everyNDays(n)` carries a 64-bit `Int`; its branches are described by `Schedule.NoEarlierBranch`, `Schedule.EveryTokenDaysParses` and `Schedule.UnrecognisedFallsBack` |
| Schedule.ParseSchedule | plant_midapp/NotificationManager.swift:159-198 | a parsed `everyNDays(n)` always carries a 64-bit `Int` |
| Schedule.ParseIgnoresCaseAndPadding | plant_midapp/NotificationManager.swift:160 | texts that differ only in letter case and surrounding whitespace parse alike |
| Schedule.PatternReadsToken | plant_midapp/NotificationManager.swift:179-187 | for every token `Int(_:)` accepts with a 64-bit value (digits with an optional sign, leading zeros allowed), the pattern reads "every <token> day(s)" as that value |
| Schedule.EveryNDaysPatternReads | plant_midapp/NotificationManager.swift:179-187 | the instance of `PatternReadsToken` for the decimal text "\(N)": the pattern reads back N for every 64-bit N, negative ones included |
| Schedule.NoEarlierBranch | plant_midapp/NotificationManager.swift:162-176 | no earlier branch claims a text of at least 11 characters made only of digits, '+', '-', spaces and the letters e, v, r, y, d, a, s (the characters of "every <token> day(s)") |
| Schedule.EveryTokenDaysParses | plant_midapp/NotificationManager.swift:159-188 | "every <token> days" and "every <token> day" parse to `everyNDays` of the token's value, for every token `Int(_:)` reads within 64 bits ("5", "007", "+5", "-3") |
| Schedule.EveryNDaysParses | plant_midapp/NotificationManager.swift:159-188 | the instance of `EveryTokenDaysParses` for "\(N)": "every N days" and "every N day" parse to `everyNDays(N)` for every 64-bit N |
| Schedule.LeadingZeroParses | plant_midapp/NotificationManager.swift:179-188 | a leading zero does not change the parse ("every 007 days" is every 7 days) |
| Schedule.PlusSignParses | plant_midapp/NotificationManager.swift:179-188 | a leading '+' does not change the parse ("every +5 days" is every 5 days) |
| Schedule.ExplicitCasesRedundant | plant_midapp/NotificationManager.swift:191-194 | the three explicit cases of the closing switch are already read by the pattern branch with the same value |
| Schedule.PresetsParse | plant_midapp/ReminderView.swift:23-26 | each of the six form choices parses to the schedule it names, never `unknown` |
| Schedule.UnrecognisedFallsBack | plant_midapp/NotificationManager.swift:195-196 | a text that no branch recognises ("banana") parses to `unknown` |
| Schedule.EveryWordDaysPattern | plant_midapp/NotificationManager.swift:179-187 | for "every <w> days" and "every <w> day" with any non-empty word w whose first character is not 'e', a space, a digit or a sign ("two", "three", "five", "ten", …), the pattern branch reads nothing |
| Schedule.EveryTwoDaysFallsBack | plant_midapp/NotificationManager.swift:179-197 | "every two days" passes the pattern branch and no explicit case lists it, so it parses to `unknown` |
| Schedule.Identifier | plant_midapp/NotificationManager.swift:212-214 | the identifier is `plant.<uuid>.` followed by the suffix |
| Schedule.IdentifierInjective | plant_midapp/NotificationManager.swift:212-214 | for one plant, different suffixes give different identifiers |
| Schedule.IdentifierDotFree | plant_midapp/NotificationManager.swift:212-214 | with suffixes free of '.', one identifier names one plant and one suffix |
| Schedule.Identifiers | plant_midapp/NotificationManager.swift:216-231 | the list holds the ten plant-scoped identifiers, in order, then the two test identifiers |
| Schedule.IdentifiersDistinct | plant_midapp/NotificationManager.swift:216-231 | the twelve identifiers are pairwise different |
| Schedule.Title | plant_midapp/NotificationManager.swift:101 | defined by its body ("Hey! Let's water <name>!"); carried by `Schedule.BuildRequests` |
| Schedule.Body | plant_midapp/NotificationManager.swift:102-103 | defined by its body; described by `Schedule.BodyShape` |
| Schedule.MakeRequest | plant_midapp/NotificationManager.swift:202-208 | defined by its body (a request with the given identifier, title, body and trigger); used by `Schedule.RequestsFor` |
| Schedule.BodyShape | plant_midapp/NotificationManager.swift:102-103 | the body starts with the reminder sentence and ends with " • <amount>" exactly when the amount is non-empty |
| Schedule.RequestsFor | plant_midapp/NotificationManager.swift:107-145 | exactly one request, carrying the given title and body, under an identifier in the plant's namespace |
| Schedule.BuildRequests | plant_midapp/NotificationManager.swift:100-146 | one request titled and worded for the plant, under an identifier in the plant's namespace |
| Schedule.TriggerMatchesPeriod | plant_midapp/NotificationManager.swift:107-145 | every repeating trigger fires every `PeriodDays(s)` days, and the test schedule fires once after 10 seconds |
| Schedule.IntervalTable | plant_midapp/NotificationManager.swift:107-145 | daily and fallback repeat every 86400 s; weekly and 7 days every 604800 s; biweekly and 14 days every 1209600 s; N days every N·86400 s; the test schedule fires once after 10 s |
| Schedule.PlannedId | plant_midapp/NotificationManager.swift:107-145 | the planned identifier is the plant's identifier with the schedule's suffix |
| Schedule.SuffixOf | plant_midapp/NotificationManager.swift:107-145 | defined by its body (the suffix each `switch` case passes to `identifier`); described by `Schedule.SuffixDotFree`, `Schedule.SuffixDeterminesTrigger` and `Schedule.SuffixCancelledIff` |
| Schedule.SuffixDeterminesTrigger | plant_midapp/NotificationManager.swift:107-145 | two schedules planned under the same suffix have the same trigger |
| Schedule.SuffixDotFree | plant_midapp/NotificationManager.swift:107-145 | no suffix contains '.' |
| Schedule.EveryNSuffixCancelledIff | plant_midapp/NotificationManager.swift:216-231 | "every-N-days" is on the cancellation list exactly for N = 2, 3 or 10 |
| Schedule.SuffixCancelledIff | plant_midapp/NotificationManager.swift:216-231 | a schedule's suffix is on the list exactly unless it is `everyNDays(n)` with n outside {2, 3, 7, 10, 14} |
| Schedule.PlannedIdCancellable | plant_midapp/NotificationManager.swift:100-146 | the planned identifier is on the plant's cancellation list exactly unless the schedule is `everyNDays(n)` with n outside {2, 3, 7, 10, 14} |
| Schedule.PresetIdsCancellable | plant_midapp/ReminderView.swift:23-26 | for every form choice, the planned request is one that cancellation removes |
| Notifications.Removed | plant_midapp/NotificationManager.swift:49 | removal keeps exactly the pending identifiers not in the list, with their requests |
| Notifications.Cancelled | plant_midapp/NotificationManager.swift:48-50 | defined by its body (`Removed` with the plant's twelve identifiers); described by `Notifications.CancelIdempotent` and `Notifications.CancelRemovesPlanIff` |
| Notifications.AddedAll | plant_midapp/NotificationManager.swift:39-45 | defined by its body (each request added in turn); described by `Notifications.AddedOne` and `Notifications.AddedAllStep` |
| Notifications.Scheduled | plant_midapp/NotificationManager.swift:31-46 | defined by its body (cancel, then add the built requests); described by `Notifications.ScheduledOneAdd`, `Notifications.ScheduledPending` and `Notifications.ScheduleIdempotent` |
| Notifications.ScheduledOneAdd | plant_midapp/NotificationManager.swift:31-46 | scheduling is one cancellation followed by one insertion of the planned request |
| Notifications.ScheduledPending | plant_midapp/NotificationManager.swift:31-46 | after scheduling, the planned request is pending under its identifier, no other identifier of the list is pending, and every other identifier keeps what it had |
| Notifications.ScheduleClearsTests | plant_midapp/NotificationManager.swift:31-50 | scheduling any plant also removes both pending test reminders |
| Notifications.CancelIdempotent | plant_midapp/NotificationManager.swift:48-50 | cancelling twice is cancelling once |
| Notifications.ScheduleIdempotent | plant_midapp/NotificationManager.swift:31-46 | scheduling a plant twice is scheduling it once |
| Notifications.CancelRemovesPlanIff | plant_midapp/NotificationManager.swift:31-50 | cancelling a scheduled plant removes its planned request exactly when the planned identifier is on the list, and then restores the cancelled table |
| Notifications.RescheduleReplaces | plant_midapp/NotificationManager.swift:31-46 | rescheduling a plant whose planned identifier is on the list is the same as scheduling only the new schedule |
| Notifications.ScheduleKeepsOtherPlants | plant_midapp/NotificationManager.swift:31-50 | scheduling a plant leaves every identifier of any other plant as it was |
| Notifications.RemoveThenAdd | plant_midapp/NotificationManager.swift:55-96 | removing an identifier before adding a request under it changes nothing |
| Notifications.TestsKeepPlantReminders | plant_midapp/NotificationManager.swift:55-96 | scheduling either test reminder leaves every plant-scoped identifier as it was |
| Notifications.StaleAfterCancel | plant_midapp/NotificationManager.swift:48-50 | as written: a planned request whose identifier is off the list stays pending after cancellation |
| Notifications.StaleAfterReschedule | plant_midapp/NotificationManager.swift:31-46 | as written: rescheduling such a plant leaves the old and the new reminder pending |
| Notifications.EveryFiveDaysStale | plant_midapp/NotificationManager.swift:126-129 | "every 5 days" parses to `everyNDays(5)`, whose identifier is off the list |
| Notifications.CancelledAll | plant_midapp/NotificationManager.swift:48-50 | corrected cancellation removes every identifier in the plant's namespace and the two test identifiers |
| Notifications.CancelledAllCovers | plant_midapp/NotificationManager.swift:216-231 | corrected cancellation removes at least every identifier on the fixed list |
| Notifications.ScheduledFixed | plant_midapp/NotificationManager.swift:31-50 | corrected scheduling, defined by its body (cancel with `CancelledAll`, then add the built requests); described by `Notifications.FixedCancelComplete` and `Notifications.FixedRescheduleReplaces` |
| Notifications.FixedCancelComplete | plant_midapp/NotificationManager.swift:31-50 | corrected: cancelling a scheduled plant leaves none of its requests, for every schedule |
| Notifications.FixedRescheduleReplaces | plant_midapp/NotificationManager.swift:31-46 | corrected: rescheduling a plant equals scheduling only the new schedule, for every schedule |
| Notifications.NotificationCenter.constructor | plant_midapp/NotificationManager.swift:38 | a new center has nothing pending |
| Notifications.NotificationCenter.Add | plant_midapp/NotificationManager.swift:40 | the request replaces any pending request with the same identifier |
| Notifications.NotificationCenter.RemovePending | plant_midapp/NotificationManager.swift:49 | the pending table becomes the old one without the listed identifiers |
| Notifications.CancelNotifications | plant_midapp/NotificationManager.swift:48-50 | the pending table becomes the old one without the plant's twelve identifiers |
| Notifications.ScheduleNotifications | plant_midapp/NotificationManager.swift:31-46 | the cancel-then-add loop leaves the pending table equal to `Scheduled(old table, plant)` |
| Notifications.ScheduleRepeatingTest | plant_midapp/NotificationManager.swift:55-74 | the 60-second repeating test request is pending and nothing else changes |
| Notifications.ScheduleOneOffTest | plant_midapp/NotificationManager.swift:77-96 | the 30-second one-off test request is pending and nothing else changes |

## Left out

- `requestAuthorization()`, the completion handlers, their printed messages and the notification sound: these are outside effects with no bearing on the pending table.
- The center's calls are asynchronous. The model applies `removePendingNotificationRequests` and `add` in the order they are called, and it does not model failures reported to the completion handler.
- The `hour` and `minute` parameters of `scheduleNotifications(for:at:minute:)` are unused by the source and are not modelled.
- Time and firing are not modelled. A trigger is its interval in seconds and whether it repeats.
- `UUID()` generation: a plant id is its `uuidString`, taken as any string. `IdentifierDotFree` and `ScheduleKeepsOtherPlants` rely only on the suffixes being free of '.'.
- `Plant`'s `Codable`/`Identifiable` conformances and the views are not part of this model.
- Progress: `Double` is modelled as an exact rational (`real`), so rounding is not captured.
- Text.Lower: models lower-casing of ASCII letters only. Swift's `lowercased()` also maps non-ASCII letters.
- Text.IsWhitespace: models `.whitespacesAndNewlines` as a fixed set of eight characters (space, tab, LF, VT, FF, CR, NEL, NBSP). Other Unicode space characters are not in the set.
- Text.Split: Swift compares `Character` values (grapheme clusters, under canonical equivalence) in `==`, `hasPrefix`, `contains`, `replacingOccurrences` and `split`. The model compares single `char` values in `Text.HasPrefix`, `Text.Contains`, `Text.ReplaceAll`, `Text.Split` and in the literal comparisons of the parser.
- Schedule.RequestsFor: does not model the overflow trap of `n * 24 * 3600` for an `Int` n beyond about ±1.07·10^14. The model computes the exact product.
- Schedule.RequestsFor: does not model that the `UNTimeIntervalNotificationTrigger` initializer raises an exception (NSInternalInconsistencyException) for an interval that is not positive ("every 0 days", "every -3 days") or a repeating interval under 60 seconds. For those texts the source stops inside `buildRequests` after line 33 has already cancelled; the model builds the request instead.
- Schedule.ParseSchedule: states only the range of N as an `ensures`. The value of each branch is stated by the lemmas beside it (`EveryTokenDaysParses`, `EveryNDaysParses`, `PresetsParse`, `UnrecognisedFallsBack`, `ParseIgnoresCaseAndPadding`).
- Schedule.NoEarlierBranch: covers only texts of at least 11 characters drawn from digits, '+', '-', spaces and the letters e, v, r, y, d, a, s, which is what `EveryTokenDaysParses` needs; other texts are handled case by case (`UnrecognisedFallsBack`, `EveryTwoDaysFallsBack`).
- Schedule.EveryWordDaysPattern: does not cover words that start with 'e' ("eight", "eleven"), where the first replacement may cut into the word; `EveryTwoDaysFallsBack` and the lemma cover the other number words.
- The request's default sound (`request(id:title:body:trigger:)`, `MakeRequest`) is not modelled.

## Findings

| source | as written | input that shows it | evidently intended | confidence | as-written member | corrected member |
|---|---|---|---|---|---|---|
| plant_midapp/NotificationManager.swift:126-129, 216-231 | `everyNDays(n)` with n outside {2, 3, 7, 10, 14} is scheduled under `plant.<uuid>.every-<n>-days`, which is not in `identifiers(for:)`, so `cancelNotifications(for:)` and a later reschedule leave it pending | two `scheduleNotifications(for:)` calls for the same plant id, first with wateringDays "every 5 days", then with "Every day": both the 5-day and the daily reminder stay pending | cancelling a plant removes every reminder of that plant, whatever its schedule | not executed | Notifications.StaleAfterReschedule | Notifications.FixedRescheduleReplaces |
