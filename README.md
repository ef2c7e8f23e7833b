# Recovery Heroes: the state engine, modelled in Dafny

Recovery Heroes is a React habit tracker. A user checks in once a day as
clean, slip or relapse. The app keeps a streak of clean days and a best
streak, and lets the user pick the date the streak started. A history
calendar can be tapped to cycle each day through clean, slip, relapse and
no status, and shows a monthly tally. Users also keep a journal and a task
list. All of this logic sits in the event handlers of the `App` component
in `src/App.tsx`. This project models that logic and proves its rules.

Layout, one module per concern:

- `dates.dfy` (`Dates`): the date-fns helpers on a time-zone-free model of
  time. An `Instant` is a local day number plus milliseconds since midnight.
  `differenceInDays` truncates toward zero. `isSameMonth` compares the
  (year, month) of the proleptic Gregorian calendar.
- `types.dfy` (`Types`): the records of `src/types.ts` and the strings of
  the active language that the engine reads (`Translation`).
- `text.dfy` (`Text`): JavaScript's `trim` and the decimal `toString` used
  for task ids.
- `progress.dfy` (`Progress`): the streak rules, the history calendar's
  four-state cycle and the monthly tally, as functions and lemmas, plus
  `updateStreak` as a method that edits a copy of the profile.
- `lists.dfy` (`Lists`): task toggling and deletion, new tasks, journal
  titles, the bundle a first login starts from, the renaming of default
  tasks on a language switch, and the shape of `parseDates`.
- `app.dfy` (`RecoveryApp`): class `App`. It has one field per React state
  the engine uses and one method per handler. The two effects the engine
  relies on (`src/App.tsx:134-140` and `142-150`) are methods the host calls
  after the state they watch changes. React also runs both effects once
  when the component mounts, so the host calls `CheckinEffect` and
  `SetLanguage` with the active language once right after construction. The current time, the answer to
  `confirm()`, the stored bundle and the active language's strings are
  parameters.

Behaviour of the code that the model keeps as written:

- `parseDates` drops nothing. A non-array gives the empty list. An array
  keeps its length and order, whatever its dates hold.
- With no recorded check-in, the prompt effect leaves the prompt flag as it
  is. It does not show the prompt. Logging in and out do not touch the flag
  either. So after one account checks in and logs out, a fresh account
  logging in is not prompted (`PromptAfterAccountSwitch`).
- On a calendar with at most one record per day, four taps on a day bring
  back its status. They restore the list exactly when the day had no
  record, and when its record was already the last one and dated by the
  tapped calendar cell, as every record a tap appends is. Otherwise the
  record comes back at the end of the list, dated by the tapped cell.
- Taps and updates keep a calendar at one record per day at most, but a
  saved calendar is loaded unchecked. With two records on one day, taps
  act on the first only, and four taps need not bring the status back
  (`FourTapsOnDuplicateDay`).
- Journal titles start with the characters the source file holds: each
  coloured-circle emoji's UTF-8 bytes read as Windows-1252 characters,
  followed by a space.
- A confirmed reset also zeroes `cleanDays`.
- A clean check-in does not advance a running streak. The best streak
  catches up only at a check-in or a start-date change.

## Model

| member | source | states |
|---|---|---|
| `Dates.DaysSinceMidnight` | src/App.tsx:214-216 | counting from the start day's midnight, the whole days elapsed at any time of today equal today's day number minus the start's, and are not positive for a future start |
| `Progress.CalculateStreak` | src/App.tsx:212-218 | the streak is 0 without a start date, otherwise max(0, today − start day); it is never negative |
| `Progress.WithStartDate` | src/App.tsx:220-232 | a start-date change stores the new date and the streak computed from it; the best streak never decreases, is at least the new streak, and equals the old best or the new streak; no other field changes |
| `RecoveryApp.App.StartDateChange` | src/App.tsx:220-232 | with a signed-in user, the profile becomes the start-date update of the old one; with none, nothing happens |
| `Progress.UpdateStreak` | src/App.tsx:234-258 | a clean check-in starts a streak of 1 today when none runs and otherwise keeps the streak, and the best becomes max(old best, streak); a slip only adds a slip; a relapse adds a relapse, ends the streak and zeroes it, keeping the best; the best never decreases and a non-negative streak stays non-negative |
| `Progress.CheckinRules` | src/App.tsx:237-256 | the check-in rules count exactly one slip or relapse unless the check-in is clean, never lower the best streak or touch the clean-day counter, and leave a running streak the best covers after a clean check-in |
| `Progress.CheckinRulesDeterministic` | src/App.tsx:237-256 | the check-in rules determine every field of the new profile |
| `RecoveryApp.App.UpdateStatus` | src/App.tsx:260-271 | a check-in applies the rules above, records its time and hides the prompt; a null status changes nothing |
| `RecoveryApp.App.CheckinEffect` | src/App.tsx:134-140 | with a recorded check-in, the prompt shows exactly when that check-in was on another day than today; without one, the flag is left as it was |
| `RecoveryApp.PromptAfterAccountSwitch` | src/App.tsx:134-140 | after one account checks in and logs out, an account logging in with no saved data is not shown the prompt |
| `Progress.FindDayIndex` | src/App.tsx:275-277 | the index is that of the first record on the same day, or -1 when no record is on that day |
| `Progress.UpdatedHistory` | src/App.tsx:273-292 | a null status never adds a record; any other status never removes one and adds at most one |
| `Progress.UpdateKeepsOtherDays` | src/App.tsx:273-292 | updating one day leaves the records of every other day, and their order, unchanged |
| `Progress.UpdateSetsStatus` | src/App.tsx:273-292 | afterwards the calendar shows the given status on that day, or, on a list with at most one record per day, no status for null |
| `Progress.UpdateKeepsAtMostOnePerDay` | src/App.tsx:273-292 | an update never gives a day a second record |
| `RecoveryApp.App.UpdateHistoryStatus` | src/App.tsx:273-292 | the imperative copy-then-splice/assign/push update stores exactly the updated list, with the three properties above |
| `Progress.GetNextStatus` | src/App.tsx:294-300 | the next status is one step along none → clean → slip → relapse → none from the status of the record found, and is null exactly after a relapse |
| `Progress.Tap` | src/App.tsx:437-440 | one tap keeps every other day's records; on a list with at most one record per day it moves the day one step along that cycle and keeps that property |
| `RecoveryApp.App.TapCalendarDay` | src/App.tsx:437-440 | a calendar tap stores the next status of the tapped day as computed from the record the calendar found |
| `Progress.FourTapsRestoreStatus` | src/App.tsx:294-300 | on a list with at most one record per day, four taps on the same day give back its status and leave every other day's records untouched |
| `Progress.TapsOnEmptyDay` | src/App.tsx:284-288 | on a day without a record, taps append a clean record at the end, edit it to slip and relapse, then remove it |
| `Progress.FourTapsOnEmptyDayRestoreList` | src/App.tsx:437-440 | four taps on a day without a record restore the list exactly |
| `Progress.TapOnRecordedDay` | src/App.tsx:279-287 | on a list with at most one record per day, a tap on a recorded day edits that record in place, or removes it when it shows a relapse |
| `Progress.FourTapsOnRecordedDayMoveItLast` | src/App.tsx:437-440 | on a list with at most one record per day, four taps on a recorded day bring its status back as a record at the end of the list |
| `Progress.FourTapsOnLastRecordRestoreList` | src/App.tsx:437-440 | on a list with at most one record per day, four taps on a day whose record is already last and dated by the tapped cell restore the list exactly |
| `Progress.FourTapsOnDuplicateDay` | src/App.tsx:275-288 | with a relapse record followed by a clean record on the same day, four taps leave the day with no status, so the four-tap round trip needs one record per day |
| `Progress.ResetCounters` | src/App.tsx:306-314 | a reset zeroes every counter and the streaks, clears the start date and keeps id and name |
| `RecoveryApp.App.ResetProgress` | src/App.tsx:302-319 | when confirmed, the profile is reset, the last check-in forgotten and the prompt shown; when declined, nothing changes |
| `RecoveryApp.App.ResetDailyCheckin` | src/App.tsx:321-324 | the prompt shows and the last check-in is forgotten |
| `Progress.InMonth` | src/App.tsx:373 | the month's records are exactly the records that fall in that month |
| `Progress.CountsAddUp` | src/App.tsx:374-379 | the clean, slip and relapse counts of a list add up to its length |
| `Progress.Tally` | src/App.tsx:371-380 | the month's three counts add up to the number of records in that month |
| `Progress.TallyIgnoresOtherMonths` | src/App.tsx:373 | a record from another month does not change a month's tally |
| `Progress.MarchTallyExample` | src/App.tsx:371-380 | the March 2024 tally of records on 1 March (clean), 15 March (slip) and 1 April (clean) is one clean day, one slip and no relapse |
| `RecoveryApp.App.GetMonthStats` | src/App.tsx:371-380 | the one-pass count over the month's records equals the tally |
| `Text.Trim` | src/App.tsx:327 | the trimmed text is a slice of the input with only whitespace before and after it; it is empty exactly when the input is all whitespace, and otherwise neither starts nor ends with whitespace |
| `Text.TrimIdempotent` | src/App.tsx:335 | trimming twice is trimming once |
| `Lists.JournalTitle` | src/App.tsx:328-330 | a title is the five-character prefix of its status followed by that status's label in the active language |
| `Lists.TitleShowsStatus` | src/App.tsx:328-330 | the first five characters of a title determine its status, whatever the language of either title |
| `RecoveryApp.App.AddJournalEntry` | src/App.tsx:326-344 | a non-blank draft becomes a new first entry, trimmed and titled by its status, and the form resets to an empty clean draft; a blank draft changes nothing |
| `Lists.ToggleTask` | src/App.tsx:346-350 | the list keeps its length and order; exactly the tasks with that id have `completed` flipped and nothing else changes |
| `Lists.ToggleTwice` | src/App.tsx:346-350 | toggling the same id twice restores the list |
| `RecoveryApp.App.ToggleTaskCompletion` | src/App.tsx:346-350 | the task list becomes the toggled list |
| `Lists.DeleteTask` | src/App.tsx:352-354 | the remaining tasks are exactly the tasks whose id differs |
| `Lists.DeleteTaskAppend` | src/App.tsx:352-354 | deleting works segment by segment, so the kept tasks stay in order |
| `Lists.DeleteAbsentTask` | src/App.tsx:352-354 | deleting an id no task has leaves the list as it is |
| `RecoveryApp.App.DeleteTask` | src/App.tsx:352-354 | the task list becomes the filtered list |
| `Lists.NewTask` | src/App.tsx:360-365 | a new task is not completed, has importance 2, the trimmed name, and the current time in milliseconds as its id |
| `RecoveryApp.App.AddNewTask` | src/App.tsx:356-369 | a non-blank name appends the new task and clears the draft; a blank name changes nothing |
| `Text.NatToString` | src/App.tsx:160 | the decimal string is non-empty, all digits, without a leading zero, one digit exactly below 10, and spells the number's value |
| `Text.NatToStringInjective` | src/App.tsx:160 | different numbers give different id strings |
| `Lists.DefaultTaskId` | src/App.tsx:160 | the id of the default task at a position is all digits, without a leading zero, and spells the position plus one |
| `Lists.FirstFiveDefaultTaskIds` | src/App.tsx:159-164 | the five default tasks get the ids "1" to "5" |
| `Lists.DefaultTasks` | src/App.tsx:159-164 | one task per default name, with ids "1", "2", …, not completed, importance 2 |
| `Lists.DefaultTaskIdsDistinct` | src/App.tsx:159-164 | the default tasks have pairwise different ids |
| `Lists.DefaultBundle` | src/App.tsx:155-166 | a login without saved data starts from the signed-in user, empty calendar and journal, no check-in, and the default tasks of the active language |
| `RecoveryApp.App.LogIn` | src/App.tsx:152-173 | the state becomes the saved bundle of the account, or the default bundle when nothing was saved |
| `RecoveryApp.App.LogOut` | src/App.tsx:180-190 | the account's user, lists and last check-in are cleared |
| `RecoveryApp.App.constructor` | src/App.tsx:82-101 | the state starts from the saved session's bundle or empty, with the prompt shown and empty drafts |
| `Lists.DefaultNameFor` | src/App.tsx:144-147 | the name looked up for an id is the default name at the position whose id it is, and there is none when no position has that id |
| `Lists.RenamedTask` | src/App.tsx:147 | a task whose id has a non-empty default name takes that name; with no default name or an empty one it is unchanged; only the name can change |
| `Lists.RenameDefaultTasks` | src/App.tsx:142-150 | a language switch changes only task names: a task whose id has a non-empty default name in the new language takes it, any other task is left as it was |
| `Lists.RenameDefaultBundle` | src/App.tsx:142-166 | renaming a freshly seeded task list gives the list a login in the new language would have seeded |
| `RecoveryApp.App.SetLanguage` | src/App.tsx:142-150 | after a language switch the tasks are the renamed list, with the same length and only names changed; a task whose id has a non-empty default name takes it, any other task is unchanged |
| `Lists.ParseDates` | src/App.tsx:8-16 | a non-array gives the empty list; an array gives one revived item per stored item, in order, with nothing dropped |

## Left out

- Persistence: `saveUserData`, `loadUserData`, the parsing in `initializeUserData` and the `localStorage` effects (`src/App.tsx:59-80`, `103-132`, `193-210`) are `JSON.stringify`/`JSON.parse` over browser storage. The loaded bundle is a parameter of the constructor and of `LogIn`. Only `parseDates`' list shape is modelled, with the date revival as a parameter.
- Login credential lookup (`src/App.tsx:18-43`, `153`), `isAuthenticated`, `loginError` and the username and password fields. Hard-coded plaintext credentials give nothing to verify beyond a list search. The user's `username` and `password` fields are not part of `User` here.
- The check-in notification (`src/App.tsx:264-266`). Its message and its `setTimeout` are asynchronous UI.
- Rendering and navigation: `renderContent`, `renderCalendar`'s grid, `renderMonthStats`, the login form, `activeTab`, `selectedMonth`, and the language and tab buttons.
- Date input parsing (`parseISO` at `src/App.tsx:221`). The picked date is a parameter, so an invalid date string is not modelled.
- Time zones and daylight saving. Days are whole local days, and `differenceInDays` is plain truncated division of the millisecond difference.
- `src/translations.ts` is not part of this model. The active language's labels and default task names are a parameter. Both shipped languages list five default tasks, so a first login seeds five tasks.
- `RecoveryApp.App.UpdateHistoryStatus`: the source copies the array shallowly and assigns `.status` on the shared record object, so the previous array's record changes too. The model works on values, so this aliasing is not captured.
- React's deferred state updates. Each handler's setters are applied at once. This matches the source for one event per render.
- JavaScript number limits. Counters are unbounded integers, and ids from `Date.now().toString()` are decimal strings of a natural number, without exponent notation.
- The unused `date` argument of `updateStreak` and `updateStatus`. The time of the check-in is the `now` parameter.
