/** The recovery-tracking rules of the `App` component (src/App.tsx): the
    streak counters, the history calendar's four-state cycle and the
    monthly tally. */
module Progress {
  import opened Dates
  import opened Types

  // ---------------------------------------------------------------------
  // Streak derived from the start date (calculateStreak, handleStartDateChange)

  /** `calculateStreak`: the whole days from the midnight of the start date
      to `now`, never negative, and 0 when no streak is running. */
  function CalculateStreak(startDate: Option<Instant>, now: Instant): (r: int)
    ensures r >= 0
    ensures startDate.None? ==> r == 0
    ensures startDate.Some? ==> r == Max(0, now.day - startDate.value.day)
  {
    match startDate
    case None => 0
    case Some(start) =>
      DaysSinceMidnight(now, start);
      Max(0, DifferenceInDays(now, StartOfDay(start)))
  }

  /** The profile `handleStartDateChange` stores: the new start date, the
      streak recomputed from it, and a best streak that never decreases. */
  function WithStartDate(u: User, newDate: Option<Instant>, now: Instant): (r: User)
    ensures r.startDate == newDate
    ensures r.currentStreak == CalculateStreak(newDate, now)
    ensures r.bestStreak >= u.bestStreak && r.bestStreak >= r.currentStreak
    ensures r.bestStreak == u.bestStreak || r.bestStreak == r.currentStreak
    ensures r.(startDate := u.startDate, currentStreak := u.currentStreak, bestStreak := u.bestStreak) == u
  {
    var newStreak := CalculateStreak(newDate, now);
    u.(startDate := newDate, currentStreak := newStreak, bestStreak := Max(u.bestStreak, newStreak))
  }

  // ---------------------------------------------------------------------
  // Daily check-in (updateStreak)

  /** What a daily check-in with `status` at time `now` makes of profile `u`:
      - clean: a streak starts today at 1 when none is running, a running
        streak is left as it is, and the best streak catches up with it;
      - slip: one more slip, nothing else;
      - relapse: one more relapse, the streak ends and is zero.
      Identity and the clean-day counter are never touched, so a check-in
      counts exactly one slip or relapse unless it is clean, the best
      streak never drops, and after a clean check-in a streak is running
      that the best streak covers. */
  predicate CheckinRules(u: User, status: DayStatus, now: Instant, r: User): (ok: bool)
    ensures ok ==> r.slips + r.relapses == u.slips + u.relapses + (if status == Clean then 0 else 1)
    ensures ok ==> r.bestStreak >= u.bestStreak && r.cleanDays == u.cleanDays
    ensures ok && status == Clean ==> r.startDate.Some? && r.bestStreak >= r.currentStreak
  {
    r.id == u.id && r.name == u.name && r.cleanDays == u.cleanDays &&
    match status
    case Clean =>
      r.slips == u.slips && r.relapses == u.relapses &&
      (if u.startDate.None?
       then r.startDate == Some(now) && r.currentStreak == 1
       else r.startDate == u.startDate && r.currentStreak == u.currentStreak) &&
      r.bestStreak == Max(u.bestStreak, r.currentStreak)
    case Slip =>
      r.slips == u.slips + 1 && r.relapses == u.relapses &&
      r.startDate == u.startDate && r.currentStreak == u.currentStreak &&
      r.bestStreak == u.bestStreak
    case Relapse =>
      r.relapses == u.relapses + 1 && r.slips == u.slips &&
      r.startDate == None && r.currentStreak == 0 &&
      r.bestStreak == u.bestStreak
  }

  /** `updateStreak`: edits a copy of the profile field by field. */
  method UpdateStreak(user: User, status: DayStatus, now: Instant) returns (newUser: User)
    ensures CheckinRules(user, status, now, newUser)
    ensures newUser.bestStreak >= user.bestStreak
    ensures user.currentStreak >= 0 ==> newUser.currentStreak >= 0
  {
    newUser := user;
    if status == Clean {
      if user.startDate.None? {
        newUser := newUser.(startDate := Some(now));
        newUser := newUser.(currentStreak := 1);
      }
      if newUser.currentStreak > user.bestStreak {
        newUser := newUser.(bestStreak := newUser.currentStreak);
      }
    } else if status == Relapse {
      newUser := newUser.(currentStreak := 0);
      newUser := newUser.(startDate := None);
      newUser := newUser.(relapses := newUser.relapses + 1);
    } else if status == Slip {
      newUser := newUser.(slips := newUser.slips + 1);
    }
  }

  /** The rules determine the new profile completely. */
  lemma CheckinRulesDeterministic(u: User, status: DayStatus, now: Instant, r1: User, r2: User)
    requires CheckinRules(u, status, now, r1) && CheckinRules(u, status, now, r2)
    ensures r1 == r2
  {
  }

  /** The profile `resetProgress` stores: every counter zero, no streak,
      identity kept. */
  function ResetCounters(u: User): (r: User)
    ensures r.id == u.id && r.name == u.name
    ensures r.cleanDays == 0 && r.slips == 0 && r.relapses == 0
    ensures r.startDate == None && r.currentStreak == 0 && r.bestStreak == 0
  {
    u.(cleanDays := 0, slips := 0, relapses := 0, startDate := None, currentStreak := 0, bestStreak := 0)
  }

  // ---------------------------------------------------------------------
  // History calendar (getNextStatus, updateHistoryStatus, the day buttons)

  /** `findIndex` of the first record on the same day as `date`, or -1. */
  function FindDayIndex(days: seq<CalendarDay>, date: Instant): (i: int)
    ensures -1 <= i < |days|
    ensures 0 <= i ==> IsSameDay(days[i].date, date)
    ensures forall j :: 0 <= j < |days| && (i < 0 || j < i) ==> !IsSameDay(days[j].date, date)
  {
    if days == [] then -1
    else if IsSameDay(days[0].date, date) then 0
    else
      var j := FindDayIndex(days[1..], date);
      if j < 0 then -1 else j + 1
  }

  /** `find`: the record the calendar shows for the day of `date`, if any. */
  function DayRecord(days: seq<CalendarDay>, date: Instant): Option<CalendarDay>
  {
    var i := FindDayIndex(days, date);
    if i < 0 then None else Some(days[i])
  }

  /** The status the calendar shows for the day of `date`. */
  function StatusOn(days: seq<CalendarDay>, date: Instant): Option<DayStatus>
  {
    match DayRecord(days, date)
    case None => None
    case Some(d) => Some(d.status)
  }

  /** `getNextStatus`: the status a tap gives a day that shows `current`,
      one step further along the calendar's cycle. */
  function GetNextStatus(current: Option<CalendarDay>): (r: Option<DayStatus>)
    ensures r == Advance(if current.None? then None else Some(current.value.status))
    ensures r.None? <==> current.Some? && current.value.status == Relapse
  {
    match current
    case None => Some(Clean)
    case Some(d) =>
      match d.status
      case Clean => Some(Slip)
      case Slip => Some(Relapse)
      case Relapse => None
  }

  /** The calendar's cycle on statuses: none, clean, slip, relapse, none. */
  function Advance(s: Option<DayStatus>): Option<DayStatus>
  {
    match s
    case None => Some(Clean)
    case Some(Clean) => Some(Slip)
    case Some(Slip) => Some(Relapse)
    case Some(Relapse) => None
  }

  /** The list `updateHistoryStatus(status, date)` stores: the first record
      of that day gets `status`, or is removed when `status` is null; a
      day without a record gets one appended. A null status never adds a
      record; any other status never removes one and adds at most one. */
  function UpdatedHistory(days: seq<CalendarDay>, status: Option<DayStatus>, date: Instant): (r: seq<CalendarDay>)
    ensures status.None? ==> |r| <= |days|
    ensures status.Some? ==> |days| <= |r| <= |days| + 1
  {
    var i := FindDayIndex(days, date);
    if status.None? then
      if i >= 0 then days[..i] + days[i + 1..] else days
    else if i >= 0 then days[i := days[i].(status := status.value)]
    else days + [CalendarDay(date, status.value)]
  }

  /** What one tap on the calendar button of day `cell` stores: on a list
      with at most one record per day, the day moves one step along none,
      clean, slip, relapse, none, and every other day keeps its records. */
  function Tap(days: seq<CalendarDay>, cell: Instant): (r: seq<CalendarDay>)
    ensures AtMostOnePerDay(days) ==> StatusOn(r, cell) == Advance(StatusOn(days, cell))
    ensures AtMostOnePerDay(days) ==> AtMostOnePerDay(r)
    ensures OtherDays(r, cell.day) == OtherDays(days, cell.day)
  {
    var next := GetNextStatus(DayRecord(days, cell));
    UpdateKeepsOtherDays(days, next, cell);
    if AtMostOnePerDay(days) then
      UpdateSetsStatus(days, next, cell);
      UpdateKeepsAtMostOnePerDay(days, next, cell);
      UpdatedHistory(days, next, cell)
    else
      UpdatedHistory(days, next, cell)
  }

  /** At most one record per calendar day. */
  predicate AtMostOnePerDay(days: seq<CalendarDay>)
  {
    forall i, j :: 0 <= i < j < |days| ==> days[i].date.day != days[j].date.day
  }

  /** The records of every other day than `day`, in order. */
  function OtherDays(days: seq<CalendarDay>, day: int): (r: seq<CalendarDay>)
    ensures |r| <= |days|
  {
    if days == [] then []
    else if days[0].date.day == day then OtherDays(days[1..], day)
    else [days[0]] + OtherDays(days[1..], day)
  }

  /** They are exactly the records of the list whose day differs. */
  lemma {:induction false} OtherDaysMembers(days: seq<CalendarDay>, day: int)
    ensures forall x :: x in OtherDays(days, day) <==> x in days && x.date.day != day
  {
    if days != [] {
      OtherDaysMembers(days[1..], day);
      assert days == [days[0]] + days[1..];
    }
  }

  lemma {:induction false} OtherDaysAppend(a: seq<CalendarDay>, b: seq<CalendarDay>, day: int)
    ensures OtherDays(a + b, day) == OtherDays(a, day) + OtherDays(b, day)
  {
    if a == [] {
      assert a + b == b;
    } else {
      assert (a + b)[1..] == a[1..] + b;
      OtherDaysAppend(a[1..], b, day);
    }
  }

  /** Two lists with the same dates, element by element, find the same
      record for every day. */
  lemma FindDayIndexSameDates(a: seq<CalendarDay>, b: seq<CalendarDay>, date: Instant)
    requires |a| == |b|
    requires forall k :: 0 <= k < |a| ==> a[k].date == b[k].date
    ensures FindDayIndex(a, date) == FindDayIndex(b, date)
  {
  }

  /** Records of day `d` only: none of them is another day's. */
  lemma {:induction false} OtherDaysOfOneDay(y: seq<CalendarDay>, d: int)
    requires forall k :: 0 <= k < |y| ==> y[k].date.day == d
    ensures OtherDays(y, d) == []
  {
    if y != [] {
      OtherDaysOfOneDay(y[1..], d);
    }
  }

  /** Records of day `d` spliced between two lists do not change the
      records of the other days. */
  lemma OtherDaysSkipsDay(pre: seq<CalendarDay>, y: seq<CalendarDay>, post: seq<CalendarDay>, d: int)
    requires forall k :: 0 <= k < |y| ==> y[k].date.day == d
    ensures OtherDays(pre + (y + post), d) == OtherDays(pre, d) + OtherDays(post, d)
  {
    OtherDaysAppend(pre, y + post, d);
    OtherDaysAppend(y, post, d);
    OtherDaysOfOneDay(y, d);
  }

  /** Replacing a record of day `d` by records of day `d` keeps the
      records of the other days. */
  lemma OtherDaysReplaceAt(days: seq<CalendarDay>, i: int, y: seq<CalendarDay>, d: int)
    requires 0 <= i < |days| && days[i].date.day == d
    requires forall k :: 0 <= k < |y| ==> y[k].date.day == d
    ensures OtherDays(days[..i] + (y + days[i + 1..]), d) == OtherDays(days, d)
  {
    assert days == days[..i] + ([days[i]] + days[i + 1..]);
    OtherDaysSkipsDay(days[..i], [days[i]], days[i + 1..], d);
    OtherDaysSkipsDay(days[..i], y, days[i + 1..], d);
  }

  /** Updating one day leaves the records of every other day, and their
      order, as they were. */
  lemma UpdateKeepsOtherDays(days: seq<CalendarDay>, status: Option<DayStatus>, date: Instant)
    ensures OtherDays(UpdatedHistory(days, status, date), date.day) == OtherDays(days, date.day)
  {
    var i := FindDayIndex(days, date);
    var r := UpdatedHistory(days, status, date);
    if i >= 0 && status.None? {
      assert r == days[..i] + ([] + days[i + 1..]);
      OtherDaysReplaceAt(days, i, [], date.day);
    } else if i >= 0 {
      var x := days[i].(status := status.value);
      assert r == days[..i] + ([x] + days[i + 1..]);
      OtherDaysReplaceAt(days, i, [x], date.day);
    } else if status.Some? {
      var n := CalendarDay(date, status.value);
      assert r == days + ([n] + []);
      OtherDaysSkipsDay(days, [n], [], date.day);
      assert OtherDays([], date.day) == [];
    }
  }

  /** After an update to a status, the calendar shows that status on the
      day; after an update to null it shows nothing there, provided the day
      had at most one record. */
  lemma UpdateSetsStatus(days: seq<CalendarDay>, status: Option<DayStatus>, date: Instant)
    requires status.None? ==> AtMostOnePerDay(days)
    ensures StatusOn(UpdatedHistory(days, status, date), date) == status
  {
    var i := FindDayIndex(days, date);
    var r := UpdatedHistory(days, status, date);
    if status.Some? {
      if i >= 0 {
        FindDayIndexSameDates(days, r, date);
      } else {
        var j := FindDayIndex(r, date);
        assert IsSameDay(r[|days|].date, date);
        assert j == |days|;
      }
    } else if i >= 0 {
    }
  }

  /** Removing a record keeps at most one record per day. */
  lemma AtMostOnePerDayRemove(days: seq<CalendarDay>, i: int)
    requires AtMostOnePerDay(days) && 0 <= i < |days|
    ensures AtMostOnePerDay(days[..i] + days[i + 1..])
  {
    var r := days[..i] + days[i + 1..];
    forall a, b | 0 <= a < b < |r|
      ensures r[a].date.day != r[b].date.day
    {
      var a' := if a < i then a else a + 1;
      var b' := if b < i then b else b + 1;
      assert r[a] == days[a'] && r[b] == days[b'];
    }
  }

  /** Lists with the same dates, element by element, agree on it. */
  lemma AtMostOnePerDaySameDates(a: seq<CalendarDay>, b: seq<CalendarDay>)
    requires AtMostOnePerDay(a) && |a| == |b|
    requires forall k :: 0 <= k < |a| ==> a[k].date == b[k].date
    ensures AtMostOnePerDay(b)
  {
    forall i, j | 0 <= i < j < |b|
      ensures b[i].date.day != b[j].date.day
    {
      assert a[i].date == b[i].date && a[j].date == b[j].date;
    }
  }

  /** Appending a record of a day the list has no record of keeps it. */
  lemma AtMostOnePerDayAppend(days: seq<CalendarDay>, n: CalendarDay)
    requires AtMostOnePerDay(days)
    requires forall k :: 0 <= k < |days| ==> days[k].date.day != n.date.day
    ensures AtMostOnePerDay(days + [n])
  {
    var r := days + [n];
    forall a, b | 0 <= a < b < |r|
      ensures r[a].date.day != r[b].date.day
    {
      assert r[a] == days[a];
      if b < |days| {
        assert r[b] == days[b];
      }
    }
  }

  /** An update never creates a second record for a day. */
  lemma UpdateKeepsAtMostOnePerDay(days: seq<CalendarDay>, status: Option<DayStatus>, date: Instant)
    requires AtMostOnePerDay(days)
    ensures AtMostOnePerDay(UpdatedHistory(days, status, date))
  {
    var i := FindDayIndex(days, date);
    var r := UpdatedHistory(days, status, date);
    if i >= 0 && status.None? {
      AtMostOnePerDayRemove(days, i);
    } else if i >= 0 {
      AtMostOnePerDaySameDates(days, r);
    } else if status.Some? {
      AtMostOnePerDayAppend(days, CalendarDay(date, status.value));
    }
  }

  /** Four taps on the same day bring its status back, and leave every
      other day's records untouched. */
  lemma FourTapsRestoreStatus(days: seq<CalendarDay>, cell: Instant)
    requires AtMostOnePerDay(days)
    ensures StatusOn(FourTaps(days, cell), cell) == StatusOn(days, cell)
    ensures OtherDays(FourTaps(days, cell), cell.day) == OtherDays(days, cell.day)
    ensures AtMostOnePerDay(FourTaps(days, cell))
  {
    var t1 := Tap(days, cell);
    var t2 := Tap(t1, cell);
    var t3 := Tap(t2, cell);
    var t4 := Tap(t3, cell);
    assert StatusOn(t4, cell) == Advance(Advance(Advance(Advance(StatusOn(days, cell)))));
    assert FourTaps(days, cell) == t4;
  }

  /** Four taps on the calendar button of day `cell`. */
  function FourTaps(days: seq<CalendarDay>, cell: Instant): seq<CalendarDay>
  {
    Tap(Tap(Tap(Tap(days, cell), cell), cell), cell)
  }

  /** Taps on a day without a record: the first appends a clean record at
      the end, the next two edit it, the fourth removes it. */
  lemma TapsOnEmptyDay(days: seq<CalendarDay>, cell: Instant)
    requires StatusOn(days, cell) == None
    ensures Tap(days, cell) == days + [CalendarDay(cell, Clean)]
    ensures Tap(days + [CalendarDay(cell, Clean)], cell) == days + [CalendarDay(cell, Slip)]
    ensures Tap(days + [CalendarDay(cell, Slip)], cell) == days + [CalendarDay(cell, Relapse)]
    ensures Tap(days + [CalendarDay(cell, Relapse)], cell) == days
  {
    var n := |days|;
    forall s: DayStatus
      ensures FindDayIndex(days + [CalendarDay(cell, s)], cell) == n
    {
      var t := days + [CalendarDay(cell, s)];
      assert IsSameDay(t[n].date, cell);
      assert forall k :: 0 <= k < n ==> t[k] == days[k];
    }
    assert (days + [CalendarDay(cell, Relapse)])[..n] == days;
  }

  /** On a day without a record, four taps restore the list exactly. */
  lemma FourTapsOnEmptyDayRestoreList(days: seq<CalendarDay>, cell: Instant)
    requires StatusOn(days, cell) == None
    ensures FourTaps(days, cell) == days
  {
    TapsOnEmptyDay(days, cell);
  }

  /** A tap on a day that has a record edits that record in place, or
      removes it when it shows a relapse. */
  lemma TapOnRecordedDay(days: seq<CalendarDay>, cell: Instant, i: int)
    requires AtMostOnePerDay(days)
    requires i == FindDayIndex(days, cell) && i >= 0
    ensures days[i].status == Relapse ==> Tap(days, cell) == days[..i] + days[i + 1..]
    ensures days[i].status == Relapse ==> StatusOn(days[..i] + days[i + 1..], cell) == None
    ensures days[i].status != Relapse ==>
      var next := if days[i].status == Clean then Slip else Relapse;
      Tap(days, cell) == days[i := days[i].(status := next)] &&
      FindDayIndex(Tap(days, cell), cell) == i &&
      AtMostOnePerDay(Tap(days, cell))
  {
    var next := GetNextStatus(DayRecord(days, cell));
    UpdateSetsStatus(days, next, cell);
    UpdateKeepsAtMostOnePerDay(days, next, cell);
    if next.Some? {
      FindDayIndexSameDates(days, Tap(days, cell), cell);
    }
  }

  /** On a day that has a record, four taps bring the same status back,
      but as a record appended at the end, dated by the tapped day. */
  lemma FourTapsOnRecordedDayMoveItLast(days: seq<CalendarDay>, cell: Instant)
    requires AtMostOnePerDay(days)
    requires StatusOn(days, cell).Some?
    ensures var i := FindDayIndex(days, cell);
      FourTaps(days, cell) == days[..i] + days[i + 1..] + [CalendarDay(cell, days[i].status)]
  {
    var i := FindDayIndex(days, cell);
    var rest := days[..i] + days[i + 1..];
    var s := days[i].status;
    var t1 := Tap(days, cell);
    var t2 := Tap(t1, cell);
    var t3 := Tap(t2, cell);
    var t4 := Tap(t3, cell);
    assert FourTaps(days, cell) == t4;
    TapOnRecordedDay(days, cell, i);
    if s == Relapse {
      TapsOnEmptyDay(rest, cell);
      assert t4 == rest + [CalendarDay(cell, Relapse)];
    } else if s == Slip {
      TapOnRecordedDay(t1, cell, i);
      assert t1[..i] + t1[i + 1..] == rest;
      TapsOnEmptyDay(rest, cell);
      assert t4 == rest + [CalendarDay(cell, Slip)];
    } else {
      TapOnRecordedDay(t1, cell, i);
      TapOnRecordedDay(t2, cell, i);
      assert t2[..i] + t2[i + 1..] == rest;
      TapsOnEmptyDay(rest, cell);
      assert t4 == rest + [CalendarDay(cell, Clean)];
    }
  }

  /** When the day's record is already the last one and dated by the tapped
      cell, as every record a tap appends is, four taps restore the list
      exactly. */
  lemma FourTapsOnLastRecordRestoreList(days: seq<CalendarDay>, cell: Instant)
    requires AtMostOnePerDay(days)
    requires days != [] && days[|days| - 1].date == cell
    ensures FourTaps(days, cell) == days
  {
    var i := |days| - 1;
    assert FindDayIndex(days, cell) == i;
    FourTapsOnRecordedDayMoveItLast(days, cell);
    assert days[..i] + days[i + 1..] + [CalendarDay(cell, days[i].status)] == days;
  }

  /** Without at most one record per day, four taps need not bring the
      status back: a relapse shadowing a second record of the same day ends
      with the day empty. */
  lemma FourTapsOnDuplicateDay()
    ensures var days := [CalendarDay(Instant(5, 0), Relapse), CalendarDay(Instant(5, 0), Clean)];
      StatusOn(days, Instant(5, 0)) == Some(Relapse) &&
      StatusOn(FourTaps(days, Instant(5, 0)), Instant(5, 0)) == None
  {
    var c := Instant(5, 0);
    var days := [CalendarDay(c, Relapse), CalendarDay(c, Clean)];
    var t1 := Tap(days, c);
    assert t1 == [CalendarDay(c, Clean)];
    var t2 := Tap(t1, c);
    assert t2 == [CalendarDay(c, Slip)];
    var t3 := Tap(t2, c);
    assert t3 == [CalendarDay(c, Relapse)];
    var t4 := Tap(t3, c);
    assert t4 == [];
  }

  // ---------------------------------------------------------------------
  // Monthly tally (getMonthStats)

  datatype MonthStats = MonthStats(cleanDays: nat, slips: nat, relapses: nat)

  /** The records that fall in the month of `date`, in order. */
  function InMonth(days: seq<CalendarDay>, date: Instant): (r: seq<CalendarDay>)
    ensures |r| <= |days|
    ensures forall x :: x in r <==> x in days && IsSameMonth(x.date, date)
  {
    if days == [] then []
    else if IsSameMonth(days[0].date, date) then [days[0]] + InMonth(days[1..], date)
    else InMonth(days[1..], date)
  }

  /** The number of records with status `s`. */
  function CountStatus(days: seq<CalendarDay>, s: DayStatus): (n: nat)
    ensures n <= |days|
  {
    if days == [] then 0
    else CountStatus(days[..|days| - 1], s) + (if days[|days| - 1].status == s then 1 else 0)
  }

  /** Every record has exactly one of the three statuses, so the three
      counts add up to the number of records. */
  lemma {:induction false} CountsAddUp(days: seq<CalendarDay>)
    ensures CountStatus(days, Clean) + CountStatus(days, Slip) + CountStatus(days, Relapse) == |days|
  {
    if days != [] {
      CountsAddUp(days[..|days| - 1]);
    }
  }

  /** The tally of the month of `date`: each status counted over that
      month's records only. */
  function Tally(days: seq<CalendarDay>, date: Instant): (r: MonthStats)
    ensures r.cleanDays + r.slips + r.relapses == |InMonth(days, date)|
  {
    var m := InMonth(days, date);
    CountsAddUp(m);
    MonthStats(CountStatus(m, Clean), CountStatus(m, Slip), CountStatus(m, Relapse))
  }

  /** A record from another month does not change a month's tally. */
  lemma {:induction false} TallyIgnoresOtherMonths(days: seq<CalendarDay>, x: CalendarDay, date: Instant)
    requires !IsSameMonth(x.date, date)
    ensures Tally(days + [x], date) == Tally(days, date)
  {
    InMonthAppend(days, [x], date);
    assert [x][1..] == [];
    assert InMonth([x], date) == [];
    assert InMonth(days + [x], date) == InMonth(days, date);
  }

  /** The tally of March 2024 over records of 1 March (clean), 15 March
      (slip) and 1 April (clean) is one clean day and one slip. */
  lemma MarchTallyExample()
    ensures Tally([CalendarDay(Instant(19783, 0), Clean), CalendarDay(Instant(19797, 0), Slip),
                   CalendarDay(Instant(19814, 0), Clean)], Instant(19783, 0))
         == MonthStats(1, 1, 0)
  {
    FirstOfMarch2024();
    MidMarch2024();
    FirstOfApril2024();
    var a, b, c := CalendarDay(Instant(19783, 0), Clean), CalendarDay(Instant(19797, 0), Slip),
                   CalendarDay(Instant(19814, 0), Clean);
    var march := Instant(19783, 0);
    assert InMonth([c], march) == [];
    assert [a, b, c][1..] == [b, c] && [b, c][1..] == [c];
    assert InMonth([a, b, c], march) == [a, b];
    assert [a, b][..1] == [a];
  }

  lemma {:induction false} InMonthAppend(a: seq<CalendarDay>, b: seq<CalendarDay>, date: Instant)
    ensures InMonth(a + b, date) == InMonth(a, date) + InMonth(b, date)
  {
    if a == [] {
      assert a + b == b;
    } else {
      assert (a + b)[1..] == a[1..] + b;
      InMonthAppend(a[1..], b, date);
    }
  }
}
