/**
 * One course as a card in the course list: its day and time summary in a
 * short (narrow screens) and a long form, its conflict highlight and its
 * delete button.
 */
module CourseCard {
  import opened Wrappers
  import opened Seqs
  import opened Text
  import opened Weekdays
  import opened Courses
  import HomePage

  /**
   * The card's own `minutesToTime`: zero-padded hours (rounded down) and
   * the JavaScript remainder of the minutes, with no special case for 0.
   */
  function MinutesToTime(minutes: int): string
  {
    PadStart2(IntToString(minutes / 60)) + ":" + PadStart2(IntToString(JsRem(minutes, 60)))
  }

  /** The card and the entry form write every number of minutes the same way. */
  lemma {:induction false} AgreesWithForm(m: int)
    ensures MinutesToTime(m) == HomePage.MinutesToTime(m)
  {
    if m == 0 {
      assert NatToString(0) == "0";
      assert IntToString(0) == "0";
      assert JsRem(0, 60) == 0;
    }
  }

  /** `day.slice(0, 3)`: the first three characters, or the whole name when shorter. */
  function Abbreviation(day: string): string
  {
    if |day| <= 3 then day else day[..3]
  }

  /** Every day of the list abbreviated, in order. */
  function Abbreviations(days: seq<string>): (r: seq<string>)
    ensures |r| == |days|
    ensures forall i :: 0 <= i < |days| ==> r[i] == Abbreviation(days[i])
  {
    if days == [] then [] else [Abbreviation(days[0])] + Abbreviations(days[1..])
  }

  /** An abbreviation is a prefix of the name, at most three characters long. */
  lemma AbbreviationIsPrefix(day: string)
    ensures var a := Abbreviation(day);
            |a| <= 3 && |a| <= |day| && a == day[..|a|]
            && (|day| <= 3 <==> a == day)
  {
  }

  /** The short form loses nothing for schema days: no two days share an abbreviation. */
  lemma AbbreviationDetermines(w1: Weekday, w2: Weekday)
    ensures Abbreviation(Name(w1)) == Abbreviation(Name(w2)) <==> w1 == w2
  {
    var a1, a2 := Abbreviation(Name(w1)), Abbreviation(Name(w2));
    if a1 == a2 {
      assert |a1| == 3 && a1 == Name(w1)[..3] && a2 == Name(w2)[..3];
      assert a1[0] == a2[0] && a1[1] == a2[1];
    }
  }

  /** Two lists of schema days with the same abbreviations are the same list. */
  lemma {:induction false} AbbreviationsDetermine(ws1: seq<Weekday>, ws2: seq<Weekday>)
    requires Abbreviations(Names(ws1)) == Abbreviations(Names(ws2))
    ensures ws1 == ws2
    decreases |ws1|
  {
    if ws1 != [] {
      assert |ws2| == |ws1|;
      AbbreviationDetermines(ws1[0], ws2[0]);
      assert Names(ws1[1..]) == Names(ws1)[1..];
      assert Names(ws2[1..]) == Names(ws2)[1..];
      assert Abbreviations(Names(ws1)[1..]) == Abbreviations(Names(ws1))[1..];
      assert Abbreviations(Names(ws2)[1..]) == Abbreviations(Names(ws2))[1..];
      AbbreviationsDetermine(ws1[1..], ws2[1..]);
    }
  }

  /** The names of a list of weekdays, in order. */
  function Names(ws: seq<Weekday>): (r: seq<string>)
    ensures |r| == |ws|
    ensures forall i :: 0 <= i < |ws| ==> r[i] == Name(ws[i])
  {
    if ws == [] then [] else [Name(ws[0])] + Names(ws[1..])
  }

  /** Abbreviating never lengthens the list's text. */
  lemma {:induction false} AbbreviationsShorter(days: seq<string>)
    ensures TotalLength(Abbreviations(days)) <= TotalLength(days)
    decreases |days|
  {
    if days != [] {
      AbbreviationsShorter(days[1..]);
      assert Abbreviations(days)[1..] == Abbreviations(days[1..]);
    }
  }

  /** `start - end`, each written by the card's `minutesToTime`. */
  function TimeRange(c: Course): string
  {
    MinutesToTime(c.startTime) + " - " + MinutesToTime(c.endTime)
  }

  /** The narrow-screen line: abbreviated days joined by ", ", then ` | ` and the times. */
  function ShortSummary(c: Course): string
  {
    Join(Abbreviations(c.days), ", ") + " | " + TimeRange(c)
  }

  /** The wide-screen line: the full day names joined by ", ", then ` | ` and the times. */
  function LongSummary(c: Course): string
  {
    Join(c.days, ", ") + " | " + TimeRange(c)
  }

  /**
   * The two summaries differ only in how the days are written: they end
   * with the same time range, and the short one is never the longer.
   */
  lemma {:induction false} SummariesCompared(c: Course)
    ensures |ShortSummary(c)| <= |LongSummary(c)|
    ensures var t := " | " + TimeRange(c);
            ShortSummary(c)[|ShortSummary(c)| - |t|..] == t && LongSummary(c)[|LongSummary(c)| - |t|..] == t
  {
    var a, b, t := Join(Abbreviations(c.days), ", "), Join(c.days, ", "), " | " + TimeRange(c);
    JoinedAbbreviationsShorter(c.days);
    CommonSuffix(a, b, t);
    assert ShortSummary(c) == a + t;
    assert LongSummary(c) == b + t;
  }

  /** Joined with ", ", the abbreviated days are never longer than the full names. */
  lemma JoinedAbbreviationsShorter(days: seq<string>)
    ensures |Join(Abbreviations(days), ", ")| <= |Join(days, ", ")|
  {
    AbbreviationsShorter(days);
  }

  lemma CommonSuffix(a: string, b: string, t: string)
    requires |a| <= |b|
    ensures |a + t| <= |b + t|
    ensures (a + t)[|a + t| - |t|..] == t && (b + t)[|b + t| - |t|..] == t
  {
  }

  /**
   * Below 100 hours the time range is `HH:MM - HH:MM`, and each half
   * reads back through the form's `timeToMinutes` as the stored minutes.
   */
  lemma {:induction false} TimeRangeReadsBack(c: Course)
    requires 0 <= c.startTime < 6000 && 0 <= c.endTime < 6000
    ensures var t := TimeRange(c);
            |t| == 13 && t[5..8] == " - "
            && HomePage.TimeToMinutes(t[..5]) == Some(c.startTime)
            && HomePage.TimeToMinutes(t[8..]) == Some(c.endTime)
  {
    AgreesWithForm(c.startTime);
    AgreesWithForm(c.endTime);
    HomePage.MinutesToTimeShape(c.startTime);
    HomePage.MinutesToTimeShape(c.endTime);
    HomePage.MinutesRoundTrip(c.startTime);
    HomePage.MinutesRoundTrip(c.endTime);
    var s, e := MinutesToTime(c.startTime), MinutesToTime(c.endTime);
    var t := TimeRange(c);
    assert t == s + " - " + e;
    assert t[..5] == s && t[8..] == e;
  }

  /**
   * `hasConflict`: the card asks the store for the conflicting ids and
   * highlights itself when its own id is among them.
   */
  method HasConflict(store: CourseStore, course: Course) returns (b: bool)
    ensures b <==> InConflict(store.courses, course.id)
  {
    var ids := store.GetConflictingCourses();
    b := course.id in ids;
  }

  /** A card whose course is the only one stored is never highlighted. */
  lemma LoneCardNotHighlighted(c: Course, ids: seq<string>)
    requires IsConflictSet([c], ids)
    ensures c.id !in ids
  {
    SingleCourseNoConflict(c, c.id);
  }

  /**
   * `handleDeleteCourse`: without a token (absent or empty) nothing is
   * sent and nothing changes; otherwise the store's delete runs and its
   * outcome is what the card reports.
   */
  method HandleDeleteCourse(store: CourseStore, token: Option<string>, cid: string, reply: ApiReply)
    returns (r: Option<Response>)
    modifies store
    ensures (token.None? || token.value == "") ==> r.None? && store.courses == old(store.courses)
    ensures (token.Some? && token.value != "") ==>
              r == Some(Response(reply.success, reply.message))
              && (reply.success ==> store.courses == WithoutId(old(store.courses), cid))
              && (!reply.success ==> store.courses == old(store.courses))
  {
    if token.None? || token.value == "" {
      return None;
    }
    var outcome := store.DeleteCourse(cid, reply);
    r := Some(outcome);
  }
}
