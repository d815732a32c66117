/**
 * The weekly calendar view: every course becomes one event per recognised
 * day name, placed on that day of the displayed week and flagged when the
 * course is in the conflict list. The week itself is left abstract: an
 * event time is a day offset from the start of the week plus an hour and a
 * minute.
 */
module Calendar {
  import opened Wrappers
  import opened Seqs
  import opened Text
  import opened Weekdays
  import opened Courses

  /** The view's day-name table: Sunday is day 0 of the week, Saturday day 6. */
  const DayMap: map<string, nat> := map[
    "Sunday" := 0, "Monday" := 1, "Tuesday" := 2, "Wednesday" := 3,
    "Thursday" := 4, "Friday" := 5, "Saturday" := 6]

  /** `dayMap[day]`, None when the name is not in the table. */
  function DayNumber(day: string): Option<nat>
  {
    if day in DayMap then Some(DayMap[day]) else None
  }

  /** The names the table recognises are exactly the seven weekdays, each on its own offset in 0..6. */
  lemma DayNumberFacts(day: string)
    ensures DayNumber(day).Some? <==> Parse(day).Some?
    ensures DayNumber(day).Some? ==> DayNumber(day).value <= 6
    ensures DayNumber("Sunday") == Some(0) && DayNumber("Monday") == Some(1) && DayNumber("Tuesday") == Some(2)
            && DayNumber("Wednesday") == Some(3) && DayNumber("Thursday") == Some(4)
            && DayNumber("Friday") == Some(5) && DayNumber("Saturday") == Some(6)
  {
  }

  /** Distinct weekdays land on distinct offsets. */
  lemma DayNumberInjective(w1: Weekday, w2: Weekday)
    ensures DayNumber(Name(w1)) == DayNumber(Name(w2)) ==> w1 == w2
  {
  }

  /** A time of day as the hour and minute handed to the date library. */
  datatype ClockTime = ClockTime(hour: int, minute: int)

  /** `Math.floor(t / 60)` and `t % 60`. */
  function SplitMinutes(t: int): (ct: ClockTime)
    ensures 0 <= t ==> ct.hour * 60 + ct.minute == t && 0 <= ct.minute < 60 && 0 <= ct.hour
    ensures 0 <= t < 1440 ==> ct.hour < 24
  {
    ClockTime(t / 60, JsRem(t, 60))
  }

  /** A point in the displayed week: days after the week's first day, then hour and minute. */
  datatype EventTime = EventTime(dayOffset: nat, hour: int, minute: int)

  datatype CalendarEvent = CalendarEvent(
    id: string, title: string, start: EventTime, end: EventTime, resource: Course, hasConflict: bool)

  function At(dayOffset: nat, t: int): EventTime
  {
    var ct := SplitMinutes(t);
    EventTime(dayOffset, ct.hour, ct.minute)
  }

  /** The event pushed for course `c` on the recognised day `day` with offset `n`. */
  function MakeEvent(c: Course, day: string, n: nat, conflictIds: seq<string>): CalendarEvent
  {
    CalendarEvent(c.id + "-" + day, c.name, At(n, c.startTime), At(n, c.endTime), c, c.id in conflictIds)
  }

  /** The events of course `c` over the day list `days`, unknown names skipped. */
  function DayEvents(c: Course, days: seq<string>, conflictIds: seq<string>): seq<CalendarEvent>
    decreases |days|
  {
    if days == [] then []
    else
      var day := days[|days| - 1];
      var before := DayEvents(c, days[..|days| - 1], conflictIds);
      match DayNumber(day)
      case None => before
      case Some(n) => before + [MakeEvent(c, day, n, conflictIds)]
  }

  /** The events of a list of courses, course after course. */
  function Projection(cs: seq<Course>, conflictIds: seq<string>): seq<CalendarEvent>
    decreases |cs|
  {
    if cs == [] then []
    else Projection(cs[..|cs| - 1], conflictIds) + DayEvents(cs[|cs| - 1], cs[|cs| - 1].days, conflictIds)
  }

  /**
   * The `events` computation: for each course, for each of its day names,
   * push an event when the name is in the day table.
   */
  method Events(courses: seq<Course>, conflictIds: seq<string>) returns (events: seq<CalendarEvent>)
    ensures events == Projection(courses, conflictIds)
  {
    events := [];
    var i := 0;
    while i < |courses|
      invariant 0 <= i <= |courses|
      invariant events == Projection(courses[..i], conflictIds)
    {
      var course := courses[i];
      var k := 0;
      while k < |course.days|
        invariant 0 <= k <= |course.days|
        invariant events == Projection(courses[..i], conflictIds) + DayEvents(course, course.days[..k], conflictIds)
      {
        var day := course.days[k];
        var dayNumber := DayNumber(day);
        assert course.days[..k + 1][..k] == course.days[..k];
        if dayNumber.Some? {
          events := events + [MakeEvent(course, day, dayNumber.value, conflictIds)];
        }
        k := k + 1;
      }
      assert course.days[..k] == course.days;
      assert courses[..i + 1][..i] == courses[..i];
      i := i + 1;
    }
    assert courses[..i] == courses;
  }

  /** The day names of `days` that the table recognises, in order. */
  function KnownDays(days: seq<string>): (r: seq<string>)
    ensures forall d :: d in r <==> d in days && d in DayMap
  {
    FilterFacts(days, (d: string) => d in DayMap);
    Filter(days, (d: string) => d in DayMap)
  }

  /**
   * A course's events are its recognised day names, one event each, in the
   * order of its day list; every other name yields nothing.
   */
  lemma {:induction false} DayEventsAreKnownDays(c: Course, days: seq<string>, conflictIds: seq<string>)
    ensures |DayEvents(c, days, conflictIds)| == |KnownDays(days)|
    ensures forall k :: 0 <= k < |KnownDays(days)| ==>
              DayEvents(c, days, conflictIds)[k] == MakeEvent(c, KnownDays(days)[k], DayMap[KnownDays(days)[k]], conflictIds)
    decreases |days|
  {
    FilterFacts(days, (d: string) => d in DayMap);
    if days != [] {
      var init, day := days[..|days| - 1], days[|days| - 1];
      assert days == init + [day];
      DayEventsAreKnownDays(c, init, conflictIds);
      FilterSnoc(init, day, (d: string) => d in DayMap);
    }
  }

  /** Number of recognised day entries over a list of courses. */
  function KnownDayTotal(cs: seq<Course>): nat
    decreases |cs|
  {
    if cs == [] then 0 else KnownDayTotal(cs[..|cs| - 1]) + |KnownDays(cs[|cs| - 1].days)|
  }

  /** There is exactly one event per recognised day entry of every course. */
  lemma {:induction false} ProjectionCount(cs: seq<Course>, conflictIds: seq<string>)
    ensures |Projection(cs, conflictIds)| == KnownDayTotal(cs)
    decreases |cs|
  {
    if cs != [] {
      ProjectionCount(cs[..|cs| - 1], conflictIds);
      DayEventsAreKnownDays(cs[|cs| - 1], cs[|cs| - 1].days, conflictIds);
    }
  }

  /** Events come course by course: projecting a concatenation concatenates the projections. */
  lemma {:induction false} ProjectionAppend(cs1: seq<Course>, cs2: seq<Course>, conflictIds: seq<string>)
    ensures Projection(cs1 + cs2, conflictIds) == Projection(cs1, conflictIds) + Projection(cs2, conflictIds)
    decreases |cs2|
  {
    if cs2 == [] {
      assert cs1 + cs2 == cs1;
    } else {
      var init := cs2[..|cs2| - 1];
      assert (cs1 + cs2)[..|cs1 + cs2| - 1] == cs1 + init;
      assert (cs1 + cs2)[|cs1 + cs2| - 1] == cs2[|cs2| - 1];
      ProjectionAppend(cs1, init, conflictIds);
    }
  }

  /**
   * Every event comes from a course in the list and one of its recognised
   * day names: its id is the course id, a dash and that name; its title is
   * the course name; it lies on that day's offset; its clock times are the
   * course's minutes split into hours and minutes; and it is flagged exactly
   * when the course id is in the conflict list.
   */
  lemma {:induction false} ProjectionEventShape(cs: seq<Course>, conflictIds: seq<string>, e: CalendarEvent)
    requires e in Projection(cs, conflictIds)
    ensures e.resource in cs
    ensures e.title == e.resource.name
    ensures e.hasConflict <==> e.resource.id in conflictIds
    ensures exists day :: day in e.resource.days && day in DayMap && e.id == e.resource.id + "-" + day
                          && e.start.dayOffset == e.end.dayOffset == DayMap[day]
    ensures 0 <= e.resource.startTime ==> e.start.hour * 60 + e.start.minute == e.resource.startTime && 0 <= e.start.minute < 60
    ensures 0 <= e.resource.endTime ==> e.end.hour * 60 + e.end.minute == e.resource.endTime && 0 <= e.end.minute < 60
    decreases |cs|
  {
    var init, c := cs[..|cs| - 1], cs[|cs| - 1];
    if e in Projection(init, conflictIds) {
      ProjectionEventShape(init, conflictIds, e);
      assert forall x :: x in init ==> x in cs;
    } else {
      DayEventsAreKnownDays(c, c.days, conflictIds);
      FilterFacts(c.days, (d: string) => d in DayMap);
      var k :| 0 <= k < |DayEvents(c, c.days, conflictIds)| && DayEvents(c, c.days, conflictIds)[k] == e;
      var day := KnownDays(c.days)[k];
      assert day in KnownDays(c.days);
      assert e == MakeEvent(c, day, DayMap[day], conflictIds);
    }
  }

  /** With a correct conflict list, an event is flagged exactly when its course is in conflict. */
  lemma {:induction false} EventFlagMeansConflict(cs: seq<Course>, conflictIds: seq<string>, e: CalendarEvent)
    requires IsConflictSet(cs, conflictIds)
    requires e in Projection(cs, conflictIds)
    ensures e.hasConflict <==> InConflict(cs, e.resource.id)
  {
    ProjectionEventShape(cs, conflictIds, e);
  }

  /** A course whose three day names are all recognised yields exactly three events. */
  lemma ThreeDaysThreeEvents(c: Course, conflictIds: seq<string>)
    requires c.days == ["Monday", "Wednesday", "Friday"]
    ensures |Projection([c], conflictIds)| == 3
  {
    ProjectionCount([c], conflictIds);
    FilterKeepsAll(c.days, (d: string) => d in DayMap);
    assert [c][..0] == [];
  }
}
