/** The state of the `App` component (src/App.tsx) and its event handlers.
    Each React state variable the recovery tracker uses is a field; each
    handler is a method that updates the fields as the handler's state
    setters do. The effects that React runs after a watched state changes
    (the check-in prompt, the renaming of default tasks) are methods the
    host calls at that point. The current time, the answer to `confirm()`
    and the stored bundle are parameters. */
module RecoveryApp {
  import opened Dates
  import opened Types
  import opened Text
  import opened Progress
  import Lists

  class App {
    /** `translations[language]`, the strings of the active language. */
    var t: Translation

    var currentUser: Option<User>
    var historyCalendarDays: seq<CalendarDay>
    var journalEntries: seq<JournalEntry>
    var tasks: seq<Task>
    var lastCheckinDate: Option<Instant>
    var showDailyCheckin: bool

    // Drafts typed into the journal and task forms.
    var newJournalEntry: string
    var newJournalStatus: DayStatus
    var newTaskName: string

    /** The state's initial values, from the bundle found for the saved
        session (`initializeUserData`) or empty when there is none. */
    constructor (t: Translation, initial: Option<UserData>)
      ensures this.t == t
      ensures initial.None? ==>
        currentUser == None && historyCalendarDays == [] && journalEntries == [] &&
        tasks == [] && lastCheckinDate == None
      ensures initial.Some? ==>
        currentUser == Some(initial.value.user) &&
        historyCalendarDays == initial.value.historyCalendarDays &&
        journalEntries == initial.value.journalEntries &&
        tasks == initial.value.tasks &&
        lastCheckinDate == initial.value.lastCheckinDate
      ensures showDailyCheckin
      ensures newJournalEntry == "" && newJournalStatus == Clean && newTaskName == ""
    {
      this.t := t;
      match initial {
        case None =>
          currentUser := None;
          historyCalendarDays := [];
          journalEntries := [];
          tasks := [];
          lastCheckinDate := None;
        case Some(data) =>
          currentUser := Some(data.user);
          historyCalendarDays := data.historyCalendarDays;
          journalEntries := data.journalEntries;
          tasks := data.tasks;
          lastCheckinDate := data.lastCheckinDate;
      }
      showDailyCheckin := true;
      newJournalEntry := "";
      newJournalStatus := Clean;
      newTaskName := "";
    }

    /** `handleLogin` after the credentials matched `user`: the saved bundle
        of that account, or the default bundle when nothing was saved. */
    method LogIn(user: User, saved: Option<UserData>)
      modifies this`currentUser, this`historyCalendarDays, this`journalEntries, this`tasks, this`lastCheckinDate
      ensures var b := if saved.Some? then saved.value else Lists.DefaultBundle(user, t);
        currentUser == Some(b.user) && historyCalendarDays == b.historyCalendarDays &&
        journalEntries == b.journalEntries && tasks == b.tasks &&
        lastCheckinDate == b.lastCheckinDate
      ensures saved.None? ==>
        currentUser == Some(user) && |tasks| == |t.defaultTasks| &&
        historyCalendarDays == [] && journalEntries == [] && lastCheckinDate == None
    {
      var userData := if saved.Some? then saved.value else Lists.DefaultBundle(user, t);
      currentUser := Some(userData.user);
      historyCalendarDays := userData.historyCalendarDays;
      journalEntries := userData.journalEntries;
      tasks := userData.tasks;
      lastCheckinDate := userData.lastCheckinDate;
    }

    /** `handleLogout`: the account's state is cleared; the check-in prompt
        flag is not touched. */
    method LogOut()
      modifies this`currentUser, this`historyCalendarDays, this`journalEntries, this`tasks, this`lastCheckinDate
      ensures currentUser == None && historyCalendarDays == [] && journalEntries == [] &&
        tasks == [] && lastCheckinDate == None
    {
      currentUser := None;
      historyCalendarDays := [];
      journalEntries := [];
      tasks := [];
      lastCheckinDate := None;
    }

    /** `handleStartDateChange`: the start date picked (`None` for a
        cleared field) sets the streak to the whole days since then, and
        the best streak never decreases. */
    method StartDateChange(newDate: Option<Instant>, now: Instant)
      modifies this`currentUser
      ensures old(currentUser).None? ==> currentUser == None
      ensures old(currentUser).Some? ==>
        currentUser.Some? &&
        currentUser.value.startDate == newDate &&
        currentUser.value.currentStreak == CalculateStreak(newDate, now) &&
        currentUser.value.bestStreak == Max(old(currentUser).value.bestStreak, currentUser.value.currentStreak) &&
        currentUser.value == WithStartDate(old(currentUser).value, newDate, now)
    {
      if currentUser.Some? {
        currentUser := Some(WithStartDate(currentUser.value, newDate, now));
      }
    }

    /** `updateStatus`: a check-in applies the streak rules, records the
        time of the check-in and hides the prompt; a null status changes
        nothing. */
    method UpdateStatus(status: Option<DayStatus>, now: Instant)
      modifies this`currentUser, this`lastCheckinDate, this`showDailyCheckin
      ensures status.None? ==>
        currentUser == old(currentUser) && lastCheckinDate == old(lastCheckinDate) &&
        showDailyCheckin == old(showDailyCheckin)
      ensures status.Some? ==> lastCheckinDate == Some(now) && !showDailyCheckin
      ensures status.Some? ==> (currentUser.Some? <==> old(currentUser).Some?)
      ensures status.Some? && currentUser.Some? ==>
        CheckinRules(old(currentUser).value, status.value, now, currentUser.value)
    {
      if status.Some? {
        if currentUser.Some? {
          var newUser := UpdateStreak(currentUser.value, status.value, now);
          currentUser := Some(newUser);
        }
        lastCheckinDate := Some(now);
        showDailyCheckin := false;
      }
    }

    /** The effect that runs when `lastCheckinDate` changes: with a recorded
        check-in the prompt shows exactly when that check-in was on another
        day than today; without one the prompt is left as it is. */
    method CheckinEffect(now: Instant)
      modifies this`showDailyCheckin
      ensures lastCheckinDate.Some? ==> (showDailyCheckin <==> lastCheckinDate.value.day != now.day)
      ensures lastCheckinDate.None? ==> showDailyCheckin == old(showDailyCheckin)
    {
      if lastCheckinDate.Some? {
        var lastCheckinDay := StartOfDay(lastCheckinDate.value);
        var today := StartOfDay(now);
        showDailyCheckin := !IsSameDay(lastCheckinDay, today);
      }
    }

    /** `updateHistoryStatus`: on a copy of the list, the first record of
        the day is removed (null status) or given the status, or a record
        is appended when the day has none. Other days' records keep their
        contents and order, and the list never gains a second record for a
        day. */
    method UpdateHistoryStatus(status: Option<DayStatus>, date: Instant)
      modifies this`historyCalendarDays
      ensures historyCalendarDays == UpdatedHistory(old(historyCalendarDays), status, date)
      ensures status.Some? ==> StatusOn(historyCalendarDays, date) == status
      ensures status.None? && AtMostOnePerDay(old(historyCalendarDays)) ==> StatusOn(historyCalendarDays, date) == None
      ensures OtherDays(historyCalendarDays, date.day) == OtherDays(old(historyCalendarDays), date.day)
      ensures AtMostOnePerDay(old(historyCalendarDays)) ==> AtMostOnePerDay(historyCalendarDays)
    {
      var updatedDays := historyCalendarDays;
      var existingDayIndex := FindDayIndex(updatedDays, date);
      if status.None? {
        if existingDayIndex >= 0 {
          updatedDays := updatedDays[..existingDayIndex] + updatedDays[existingDayIndex + 1..];
        }
      } else {
        if existingDayIndex >= 0 {
          updatedDays := updatedDays[existingDayIndex := updatedDays[existingDayIndex].(status := status.value)];
        } else {
          updatedDays := updatedDays + [CalendarDay(date, status.value)];
        }
      }
      UpdateKeepsOtherDays(historyCalendarDays, status, date);
      if status.Some? || AtMostOnePerDay(historyCalendarDays) {
        UpdateSetsStatus(historyCalendarDays, status, date);
      }
      if AtMostOnePerDay(historyCalendarDays) {
        UpdateKeepsAtMostOnePerDay(historyCalendarDays, status, date);
      }
      historyCalendarDays := updatedDays;
    }

    /** A tap on the calendar button of day `cell`: the day moves one step
        along none, clean, slip, relapse, none. */
    method TapCalendarDay(cell: Instant)
      modifies this`historyCalendarDays
      ensures historyCalendarDays == Tap(old(historyCalendarDays), cell)
      ensures AtMostOnePerDay(old(historyCalendarDays)) ==>
        StatusOn(historyCalendarDays, cell) == Advance(StatusOn(old(historyCalendarDays), cell))
      ensures OtherDays(historyCalendarDays, cell.day) == OtherDays(old(historyCalendarDays), cell.day)
    {
      var calendarDay := DayRecord(historyCalendarDays, cell);
      var nextStatus := GetNextStatus(calendarDay);
      assert Tap(historyCalendarDays, cell) == UpdatedHistory(historyCalendarDays, nextStatus, cell);
      UpdateHistoryStatus(nextStatus, cell);
    }

    /** `resetProgress`: when confirmed, every counter is zeroed, the streak
        ends, the last check-in is forgotten and the prompt shows; identity
        is kept. When declined, nothing changes. */
    method ResetProgress(confirmed: bool)
      modifies this`currentUser, this`lastCheckinDate, this`showDailyCheckin
      ensures !confirmed ==>
        currentUser == old(currentUser) && lastCheckinDate == old(lastCheckinDate) &&
        showDailyCheckin == old(showDailyCheckin)
      ensures confirmed ==> lastCheckinDate == None && showDailyCheckin
      ensures confirmed ==> (currentUser.Some? <==> old(currentUser).Some?)
      ensures confirmed && currentUser.Some? ==>
        var u, v := old(currentUser).value, currentUser.value;
        v.id == u.id && v.name == u.name &&
        v.cleanDays == 0 && v.slips == 0 && v.relapses == 0 &&
        v.startDate == None && v.currentStreak == 0 && v.bestStreak == 0
    {
      if confirmed {
        if currentUser.Some? {
          currentUser := Some(ResetCounters(currentUser.value));
        }
        lastCheckinDate := None;
        showDailyCheckin := true;
      }
    }

    /** `resetDailyCheckin`: the prompt shows again and the last check-in is
        forgotten. */
    method ResetDailyCheckin()
      modifies this`lastCheckinDate, this`showDailyCheckin
      ensures showDailyCheckin && lastCheckinDate == None
    {
      showDailyCheckin := true;
      lastCheckinDate := None;
    }

    /** `addJournalEntry`: a draft that is not blank becomes a new first
        entry, trimmed and titled by its status, and the form is cleared;
        a blank draft changes nothing. */
    method AddJournalEntry(now: Instant)
      modifies this`journalEntries, this`newJournalEntry, this`newJournalStatus
      ensures AllWhitespace(old(newJournalEntry)) ==>
        journalEntries == old(journalEntries) && newJournalEntry == old(newJournalEntry) &&
        newJournalStatus == old(newJournalStatus)
      ensures !AllWhitespace(old(newJournalEntry)) ==>
        |journalEntries| == |old(journalEntries)| + 1 &&
        journalEntries[1..] == old(journalEntries) &&
        journalEntries[0] == JournalEntry(now, Trim(old(newJournalEntry)), old(newJournalStatus),
                                          Lists.JournalTitle(old(newJournalStatus), t)) &&
        journalEntries[0].content != "" &&
        newJournalEntry == "" && newJournalStatus == Clean
    {
      var content := Trim(newJournalEntry);
      if content != "" {
        var title := Lists.JournalTitle(newJournalStatus, t);
        journalEntries := [JournalEntry(now, content, newJournalStatus, title)] + journalEntries;
        newJournalEntry := "";
        newJournalStatus := Clean;
      }
    }

    /** `toggleTaskCompletion`. */
    method ToggleTaskCompletion(taskId: string)
      modifies this`tasks
      ensures tasks == Lists.ToggleTask(old(tasks), taskId)
      ensures |tasks| == |old(tasks)|
      ensures forall i :: 0 <= i < |tasks| ==>
        tasks[i].(completed := old(tasks)[i].completed) == old(tasks)[i] &&
        (tasks[i].completed != old(tasks)[i].completed <==> old(tasks)[i].id == taskId)
    {
      tasks := Lists.ToggleTask(tasks, taskId);
    }

    /** `deleteTask`. */
    method DeleteTask(taskId: string)
      modifies this`tasks
      ensures tasks == Lists.DeleteTask(old(tasks), taskId)
      ensures forall x :: x in tasks <==> x in old(tasks) && x.id != taskId
    {
      tasks := Lists.DeleteTask(tasks, taskId);
    }

    /** `addNewTask`: a task name that is not blank becomes a new last task,
        trimmed, not completed, of importance 2, with the current time in
        milliseconds as its id; a blank name changes nothing. */
    method AddNewTask(nowMs: nat)
      modifies this`tasks, this`newTaskName
      ensures AllWhitespace(old(newTaskName)) ==> tasks == old(tasks) && newTaskName == old(newTaskName)
      ensures !AllWhitespace(old(newTaskName)) ==>
        tasks == old(tasks) + [Task(NatToString(nowMs), Trim(old(newTaskName)), false, 2)] &&
        newTaskName == ""
    {
      if Trim(newTaskName) != "" {
        tasks := tasks + [Lists.NewTask(nowMs, newTaskName)];
        newTaskName := "";
      }
    }

    /** `getMonthStats`: counts the records of the month of `date` by
        status, in one pass over them. */
    method GetMonthStats(date: Instant) returns (stats: MonthStats)
      ensures stats == Tally(historyCalendarDays, date)
      ensures stats.cleanDays + stats.slips + stats.relapses == |InMonth(historyCalendarDays, date)|
    {
      var days := InMonth(historyCalendarDays, date);
      var acc := MonthStats(0, 0, 0);
      for i := 0 to |days|
        invariant acc.cleanDays == CountStatus(days[..i], Clean)
        invariant acc.slips == CountStatus(days[..i], Slip)
        invariant acc.relapses == CountStatus(days[..i], Relapse)
      {
        assert days[..i + 1][..i] == days[..i];
        var day := days[i];
        if day.status == Clean {
          acc := acc.(cleanDays := acc.cleanDays + 1);
        }
        if day.status == Slip {
          acc := acc.(slips := acc.slips + 1);
        }
        if day.status == Relapse {
          acc := acc.(relapses := acc.relapses + 1);
        }
      }
      assert days[..|days|] == days;
      stats := acc;
    }

    /** A language switch and the effect it triggers: the default tasks
        take the new language's names; nothing else about a task changes. */
    method SetLanguage(newT: Translation)
      modifies this`t, this`tasks
      ensures t == newT
      ensures tasks == Lists.RenameDefaultTasks(old(tasks), newT.defaultTasks)
      ensures |tasks| == |old(tasks)|
      ensures forall i :: 0 <= i < |tasks| ==> tasks[i].(name := old(tasks)[i].name) == old(tasks)[i]
      ensures forall i, n ::
        (0 <= i < |tasks| && Lists.DefaultNameFor(newT.defaultTasks, old(tasks)[i].id) == Some(n) && n != "") ==>
        tasks[i].name == n
      ensures forall i ::
        (0 <= i < |tasks| && Lists.DefaultNameFor(newT.defaultTasks, old(tasks)[i].id) in {None, Some("")}) ==>
        tasks[i] == old(tasks)[i]
    {
      t := newT;
      tasks := Lists.RenameDefaultTasks(tasks, newT.defaultTasks);
    }
  }

  /** The prompt flag survives a change of account: after one account
      checks in today and logs out, an account logging in without saved
      data, and so without a recorded check-in, is not shown the prompt,
      because logging in and out leave the flag alone and the effect acts
      only on a recorded check-in. */
  method PromptAfterAccountSwitch(t: Translation, first: User, second: User, now: Instant)
    returns (shown: bool)
    ensures !shown
  {
    var app := new App(t, None);
    app.LogIn(first, None);
    app.UpdateStatus(Some(Clean), now);
    app.CheckinEffect(now);
    app.LogOut();
    app.LogIn(second, None);
    assert app.lastCheckinDate == None;
    app.CheckinEffect(now);
    shown := app.showDailyCheckin;
  }
}
