/** The records of the recovery tracker (src/types.ts) and the part of the
    active language's string table that the state engine reads. */
module Types {
  import opened Dates

  datatype Option<T> = None | Some(value: T)

  /** How a day went. */
  datatype DayStatus = Clean | Slip | Relapse

  /** A user profile with its counters; `startDate == None` means that no
      streak is running. */
  datatype User = User(
    id: string,
    name: string,
    cleanDays: int,
    slips: int,
    relapses: int,
    startDate: Option<Instant>,
    currentStreak: int,
    bestStreak: int)

  /** One edited day of the history calendar. */
  datatype CalendarDay = CalendarDay(date: Instant, status: DayStatus)

  datatype JournalEntry = JournalEntry(date: Instant, content: string, status: DayStatus, title: string)

  type Importance = i: int | 1 <= i <= 3 witness 2

  datatype Task = Task(id: string, name: string, completed: bool, importance: Importance)

  /** Everything stored for one account. */
  datatype UserData = UserData(
    user: User,
    historyCalendarDays: seq<CalendarDay>,
    journalEntries: seq<JournalEntry>,
    tasks: seq<Task>,
    lastCheckinDate: Option<Instant>)

  /** The strings of `translations[language]` that the state engine uses:
      the three status labels and the names of the default tasks. */
  datatype Translation = Translation(clean: string, slips: string, relapses: string, defaultTasks: seq<string>)
}
