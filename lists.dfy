/** The list edits of the `App` component (src/App.tsx): the task list, the
    journal's entry title, the bundle a first login starts from, the
    renaming of default tasks when the language changes, and the shape of
    `parseDates`. */
module Lists {
  import opened Types
  import opened Text

  // ---------------------------------------------------------------------
  // Tasks (toggleTaskCompletion, deleteTask)

  /** `toggleTaskCompletion`: flips `completed` on every task with that id
      and leaves everything else, and the order, as it was. */
  function ToggleTask(tasks: seq<Task>, taskId: string): (r: seq<Task>)
    ensures |r| == |tasks|
    ensures forall i :: 0 <= i < |r| ==>
      r[i].(completed := tasks[i].completed) == tasks[i] &&
      (r[i].completed != tasks[i].completed <==> tasks[i].id == taskId)
  {
    if tasks == [] then []
    else
      var t := tasks[0];
      [if t.id == taskId then t.(completed := !t.completed) else t] + ToggleTask(tasks[1..], taskId)
  }

  /** Toggling the same task twice restores the list. */
  lemma ToggleTwice(tasks: seq<Task>, taskId: string)
    ensures ToggleTask(ToggleTask(tasks, taskId), taskId) == tasks
  {
  }

  /** `deleteTask`: the tasks whose id differs from `taskId`, in order. */
  function DeleteTask(tasks: seq<Task>, taskId: string): (r: seq<Task>)
    ensures |r| <= |tasks|
    ensures forall t :: t in r <==> t in tasks && t.id != taskId
  {
    if tasks == [] then []
    else if tasks[0].id == taskId then DeleteTask(tasks[1..], taskId)
    else [tasks[0]] + DeleteTask(tasks[1..], taskId)
  }

  /** Deleting works list segment by list segment, so the kept tasks stay
      in their order. */
  lemma {:induction false} DeleteTaskAppend(a: seq<Task>, b: seq<Task>, taskId: string)
    ensures DeleteTask(a + b, taskId) == DeleteTask(a, taskId) + DeleteTask(b, taskId)
  {
    if a == [] {
      assert a + b == b;
    } else {
      assert (a + b)[1..] == a[1..] + b;
      DeleteTaskAppend(a[1..], b, taskId);
    }
  }

  /** A list without a task of that id is left exactly as it is. */
  lemma {:induction false} DeleteAbsentTask(tasks: seq<Task>, taskId: string)
    requires forall t :: t in tasks ==> t.id != taskId
    ensures DeleteTask(tasks, taskId) == tasks
  {
    if tasks != [] {
      DeleteAbsentTask(tasks[1..], taskId);
    }
  }

  // ---------------------------------------------------------------------
  // New tasks and journal entries (addNewTask, addJournalEntry)

  /** The task `addNewTask` appends, with the id `Date.now().toString()`. */
  function NewTask(nowMs: nat, name: string): (t: Task)
    ensures !t.completed && t.importance == 2 && t.name == Trim(name)
    ensures t.id == NatToString(nowMs)
  {
    Task(NatToString(nowMs), Trim(name), false, 2)
  }

  /** The five characters a journal title starts with. The source file
      holds each coloured-circle emoji as its UTF-8 bytes read one by one
      as Windows-1252 characters, so these are the characters it writes. */
  function TitlePrefix(status: DayStatus): (p: string)
    ensures |p| == 5 && p[4] == ' '
  {
    match status
    case Clean => "\U{00F0}\U{0178}\U{0178}\U{00A2} "
    case Slip => "\U{00F0}\U{0178}\U{0178}\U{00A0} "
    case Relapse => "\U{00F0}\U{0178}\U{201D}\U{00B4} "
  }

  /** The label of a status in the active language. */
  function StatusLabel(status: DayStatus, t: Translation): string
  {
    match status
    case Clean => t.clean
    case Slip => t.slips
    case Relapse => t.relapses
  }

  /** The title of a journal entry: the status's prefix followed by the
      status label of the active language. */
  function JournalTitle(status: DayStatus, t: Translation): (r: string)
    ensures |r| == 5 + |StatusLabel(status, t)|
    ensures r[..5] == TitlePrefix(status) && r[5..] == StatusLabel(status, t)
  {
    TitlePrefix(status) + StatusLabel(status, t)
  }

  /** The first five characters of a title tell its status, in whatever
      language either title was written. */
  lemma TitleShowsStatus(s1: DayStatus, t1: Translation, s2: DayStatus, t2: Translation)
    requires JournalTitle(s1, t1)[..5] == JournalTitle(s2, t2)[..5]
    ensures s1 == s2
  {
    var p1, p2 := TitlePrefix(s1), TitlePrefix(s2);
    assert p1[2] == p2[2] && p1[3] == p2[3];
  }

  // ---------------------------------------------------------------------
  // First-login bundle (handleLogin) and language renaming

  /** Id of the default task at position `index`: `(index + 1).toString()`. */
  function DefaultTaskId(index: nat): (id: string)
    ensures DigitsValue(id) == index + 1
    ensures forall k :: 0 <= k < |id| ==> '0' <= id[k] <= '9'
    ensures |id| > 1 ==> id[0] != '0'
  {
    NatToString(index + 1)
  }

  /** The ids of the five default tasks of both shipped languages. */
  lemma FirstFiveDefaultTaskIds()
    ensures DefaultTaskId(0) == "1" && DefaultTaskId(1) == "2" && DefaultTaskId(2) == "3"
    ensures DefaultTaskId(3) == "4" && DefaultTaskId(4) == "5"
  {
  }

  /** The default tasks: one per name, ids "1", "2", ..., not completed,
      importance 2. */
  function DefaultTasks(names: seq<string>): (r: seq<Task>)
    ensures |r| == |names|
    ensures forall i :: 0 <= i < |r| ==>
      r[i] == Task(DefaultTaskId(i), names[i], false, 2)
  {
    seq(|names|, i requires 0 <= i < |names| => Task(DefaultTaskId(i), names[i], false, 2))
  }

  /** The default tasks have pairwise different ids, so toggling or
      deleting one of them touches no other. */
  lemma DefaultTaskIdsDistinct(names: seq<string>)
    ensures forall i, j :: 0 <= i < j < |names| ==>
      DefaultTasks(names)[i].id != DefaultTasks(names)[j].id
  {
  }

  /** The account bundle a login without saved data starts from. */
  function DefaultBundle(user: User, t: Translation): (b: UserData)
    ensures b.user == user
    ensures b.historyCalendarDays == [] && b.journalEntries == [] && b.lastCheckinDate == None
    ensures |b.tasks| == |t.defaultTasks|
    ensures forall i :: 0 <= i < |b.tasks| ==>
      b.tasks[i].id == DefaultTaskId(i) && b.tasks[i].name == t.defaultTasks[i] &&
      !b.tasks[i].completed && b.tasks[i].importance == 2
  {
    UserData(user, [], [], DefaultTasks(t.defaultTasks), None)
  }

  /** `defaultTaskMap.get(id)`: the default task name whose id is `id`. */
  function DefaultNameFor(names: seq<string>, id: string): (r: Option<string>)
    ensures r.Some? <==> exists i :: 0 <= i < |names| && DefaultTaskId(i) == id
    ensures forall i :: 0 <= i < |names| && DefaultTaskId(i) == id ==> r == Some(names[i])
  {
    DefaultNameFrom(names, id, 0)
  }

  function DefaultNameFrom(names: seq<string>, id: string, k: nat): (r: Option<string>)
    requires k <= |names|
    ensures r.Some? <==> exists i :: k <= i < |names| && DefaultTaskId(i) == id
    ensures forall i :: k <= i < |names| && DefaultTaskId(i) == id ==> r == Some(names[i])
    decreases |names| - k
  {
    if k == |names| then None
    else if DefaultTaskId(k) == id then
      assert forall i :: k <= i < |names| && DefaultTaskId(i) == id ==> i == k by {
        forall i | k <= i < |names| && DefaultTaskId(i) == id
          ensures i == k
        {
          NatToStringInjective(i + 1, k + 1);
        }
      }
      Some(names[k])
    else DefaultNameFrom(names, id, k + 1)
  }

  /** The name a task gets in a language whose default names are `names`:
      `defaultTaskMap.get(id) || name`, so an empty translation keeps the
      old name. */
  function RenamedTask(t: Task, names: seq<string>): (r: Task)
    ensures r.(name := t.name) == t
    ensures DefaultNameFor(names, t.id).Some? && DefaultNameFor(names, t.id).value != "" ==>
      r.name == DefaultNameFor(names, t.id).value
    ensures DefaultNameFor(names, t.id).None? || DefaultNameFor(names, t.id).value == "" ==> r == t
  {
    match DefaultNameFor(names, t.id)
    case Some(n) => if n != "" then t.(name := n) else t
    case None => t
  }

  /** The language effect: a task whose id is a default id takes the new
      language's name for it, unless that name is empty; every other task
      keeps its name, and only names change. */
  function RenameDefaultTasks(tasks: seq<Task>, names: seq<string>): (r: seq<Task>)
    ensures |r| == |tasks|
    ensures forall i :: 0 <= i < |r| ==> r[i].(name := tasks[i].name) == tasks[i]
    ensures forall i, n :: 0 <= i < |r| && DefaultNameFor(names, tasks[i].id) == Some(n) && n != "" ==>
      r[i].name == n
    ensures forall i :: 0 <= i < |r| && DefaultNameFor(names, tasks[i].id) == Some("") ==> r[i] == tasks[i]
    ensures forall i :: 0 <= i < |r| && DefaultNameFor(names, tasks[i].id).None? ==> r[i] == tasks[i]
  {
    seq(|tasks|, i requires 0 <= i < |tasks| => RenamedTask(tasks[i], names))
  }

  /** Switching language on a freshly seeded task list yields the list a
      login in the new language would have seeded. */
  lemma RenameDefaultBundle(oldNames: seq<string>, newNames: seq<string>)
    requires |oldNames| == |newNames|
    requires forall i :: 0 <= i < |newNames| ==> newNames[i] != ""
    ensures RenameDefaultTasks(DefaultTasks(oldNames), newNames) == DefaultTasks(newNames)
  {
  }

  // ---------------------------------------------------------------------
  // parseDates

  /** A stored value as `JSON.parse` returns it: an array of items, or
      anything else. */
  datatype Stored<T> = Array(items: seq<T>) | NotArray

  /** `parseDates`: a non-array gives the empty list; an array gives one
      revived item per stored item, in the same order. Nothing is dropped. */
  function ParseDates<T, U>(data: Stored<T>, revive: T -> U): (r: seq<U>)
    ensures data.NotArray? ==> r == []
    ensures data.Array? ==> |r| == |data.items|
    ensures data.Array? ==> forall i :: 0 <= i < |r| ==> r[i] == revive(data.items[i])
  {
    match data
    case NotArray => []
    case Array(items) => seq(|items|, i requires 0 <= i < |items| => revive(items[i]))
  }
}
