/**
 * The client-side course store: the `Course` record, the pairwise overlap
 * test, the conflict-set scan and the list updates performed by create,
 * delete and update. Server round trips are replaced by the server's reply,
 * passed in as a parameter.
 */
module Courses {
  import opened Wrappers
  import opened Seqs
  import opened Text

  /** A stored course; times are minutes since local midnight. */
  datatype Course = Course(id: string, name: string, startTime: int, endTime: int, days: seq<string>)

  // ---------------------------------------------------------------------
  // Overlap predicate
  // ---------------------------------------------------------------------

  /** `days1.some(day => days2.includes(day))`. */
  function SharesDay(days1: seq<string>, days2: seq<string>): bool
  {
    if days1 == [] then false else days1[0] in days2 || SharesDay(days1[1..], days2)
  }

  /** Two courses conflict when they meet on a common day and their half-open time ranges overlap. */
  function HasTimeConflict(course1: Course, course2: Course): bool
  {
    SharesDay(course1.days, course2.days)
    && course1.startTime < course2.endTime && course2.startTime < course1.endTime
  }

  /** The scan over the first list finds a common day exactly when one exists. */
  lemma {:induction false} SharesDayIff(days1: seq<string>, days2: seq<string>)
    ensures SharesDay(days1, days2) <==> exists d :: d in days1 && d in days2
    decreases |days1|
  {
    if days1 != [] {
      SharesDayIff(days1[1..], days2);
      assert days1 == [days1[0]] + days1[1..];
    }
  }

  /** The overlap test does not depend on the order of its arguments. */
  lemma {:induction false} ConflictSymmetric(a: Course, b: Course)
    ensures HasTimeConflict(a, b) == HasTimeConflict(b, a)
  {
    SharesDayIff(a.days, b.days);
    SharesDayIff(b.days, a.days);
  }

  /** Courses with no day name in common never conflict, whatever their times. */
  lemma {:induction false} DisjointDaysNeverConflict(a: Course, b: Course)
    requires forall d :: d in a.days ==> d !in b.days
    ensures !HasTimeConflict(a, b)
  {
    SharesDayIff(a.days, b.days);
  }

  /**
   * On a shared day the test is exactly the half-open overlap: a course that
   * ends when the other starts does not conflict with it, a strict overlap does.
   */
  lemma {:induction false} SharedDayConflictIsOverlap(a: Course, b: Course, d: string)
    requires d in a.days && d in b.days
    ensures HasTimeConflict(a, b) <==> a.startTime < b.endTime && b.startTime < a.endTime
    ensures a.endTime == b.startTime ==> !HasTimeConflict(a, b)
  {
    SharesDayIff(a.days, b.days);
  }

  /** A course with a day and a non-empty time range overlaps itself. */
  lemma {:induction false} SelfOverlap(c: Course)
    requires c.days != [] && c.startTime < c.endTime
    ensures HasTimeConflict(c, c)
  {
    SharesDayIff(c.days, c.days);
    assert c.days[0] in c.days;
  }

  // ---------------------------------------------------------------------
  // Conflict set
  // ---------------------------------------------------------------------

  /** `id` belongs to a course at some index that conflicts with the course at another index. */
  ghost predicate InConflict(cs: seq<Course>, id: string)
  {
    exists i, j :: 0 <= i < |cs| && 0 <= j < |cs| && i != j && cs[i].id == id && HasTimeConflict(cs[i], cs[j])
  }

  /** `ids` lists every id in conflict in `cs`, each once, and nothing else. */
  ghost predicate IsConflictSet(cs: seq<Course>, ids: seq<string>)
  {
    NoDuplicates(ids) && forall id :: id in ids <==> InConflict(cs, id)
  }

  /** The pair `p < q` conflicts and one of its two courses carries `id`. */
  ghost predicate PairInvolves(cs: seq<Course>, p: int, q: int, id: string)
    requires 0 <= p < q < |cs|
  {
    HasTimeConflict(cs[p], cs[q]) && (cs[p].id == id || cs[q].id == id)
  }

  /** Some pair `p < q` that comes before `(i, j)` in the scan order involves `id`. */
  ghost predicate ScannedInvolves(cs: seq<Course>, i: int, j: int, id: string)
  {
    exists p, q :: 0 <= p < q < |cs| && (p < i || (p == i && q < j)) && PairInvolves(cs, p, q, id)
  }

  /** Once every pair has been scanned, the ids met are exactly the ids in conflict. */
  lemma ScanCompleteIsInConflict(cs: seq<Course>, id: string)
    ensures ScannedInvolves(cs, |cs|, 0, id) <==> InConflict(cs, id)
  {
    if InConflict(cs, id) {
      var i, j :| 0 <= i < |cs| && 0 <= j < |cs| && i != j && cs[i].id == id && HasTimeConflict(cs[i], cs[j]);
      if i < j {
        assert PairInvolves(cs, i, j, id);
      } else {
        ConflictSymmetric(cs[i], cs[j]);
        assert PairInvolves(cs, j, i, id);
      }
    }
    if ScannedInvolves(cs, |cs|, 0, id) {
      var p, q :| 0 <= p < q < |cs| && PairInvolves(cs, p, q, id);
      if cs[p].id != id {
        ConflictSymmetric(cs[p], cs[q]);
        assert HasTimeConflict(cs[q], cs[p]);
      }
    }
  }

  /** Multiset form of `InConflict`: a course with `id`, and another copy-or-course left once it is removed. */
  ghost predicate InConflictBag(m: multiset<Course>, id: string)
  {
    exists a :: a in m && a.id == id && ConflictsWithSome(a, m - multiset{a})
  }

  ghost predicate ConflictsWithSome(a: Course, m: multiset<Course>)
  {
    exists b :: b in m && HasTimeConflict(a, b)
  }

  lemma RemoveAt(cs: seq<Course>, i: int)
    requires 0 <= i < |cs|
    ensures multiset(cs) - multiset{cs[i]} == multiset(cs[..i] + cs[i + 1..])
  {
    assert cs == cs[..i] + [cs[i]] + cs[i + 1..];
  }

  lemma {:induction false} InConflictToBag(cs: seq<Course>, id: string)
    requires InConflict(cs, id)
    ensures InConflictBag(multiset(cs), id)
  {
    var i, j :| 0 <= i < |cs| && 0 <= j < |cs| && i != j && cs[i].id == id && HasTimeConflict(cs[i], cs[j]);
    var a, b := cs[i], cs[j];
    RemoveAt(cs, i);
    var rest := cs[..i] + cs[i + 1..];
    var k := if j < i then j else j - 1;
    assert rest[k] == b;
    assert b in multiset(rest);
    assert b in multiset(cs) - multiset{a};
    assert ConflictsWithSome(a, multiset(cs) - multiset{a});
    assert a in multiset(cs);
  }

  lemma {:induction false} BagToInConflict(cs: seq<Course>, id: string)
    requires InConflictBag(multiset(cs), id)
    ensures InConflict(cs, id)
  {
    var a :| a in multiset(cs) && a.id == id && ConflictsWithSome(a, multiset(cs) - multiset{a});
    var b :| b in multiset(cs) - multiset{a} && HasTimeConflict(a, b);
    assert a in cs;
    var i :| 0 <= i < |cs| && cs[i] == a;
    var j := OtherIndex(cs, i, b);
    assert cs[i].id == id && HasTimeConflict(cs[i], cs[j]);
  }

  /** An element left after removing the one at `i` sits at some other index. */
  lemma OtherIndex(cs: seq<Course>, i: int, b: Course) returns (j: int)
    requires 0 <= i < |cs| && b in multiset(cs) - multiset{cs[i]}
    ensures 0 <= j < |cs| && j != i && cs[j] == b
  {
    RemoveAt(cs, i);
    var rest := cs[..i] + cs[i + 1..];
    assert b in multiset(rest);
    assert b in rest;
    var k :| 0 <= k < |rest| && rest[k] == b;
    j := if k < i then k else k + 1;
  }

  /** Conflict membership depends only on the multiset of courses. */
  lemma {:induction false} InConflictIsBag(cs: seq<Course>, id: string)
    ensures InConflict(cs, id) <==> InConflictBag(multiset(cs), id)
  {
    if InConflict(cs, id) {
      InConflictToBag(cs, id);
    }
    if InConflictBag(multiset(cs), id) {
      BagToInConflict(cs, id);
    }
  }

  /** Reordering the course list does not change which ids are in conflict. */
  lemma {:induction false} ConflictPermutationInvariant(cs1: seq<Course>, cs2: seq<Course>, id: string)
    requires multiset(cs1) == multiset(cs2)
    ensures InConflict(cs1, id) <==> InConflict(cs2, id)
  {
    InConflictIsBag(cs1, id);
    InConflictIsBag(cs2, id);
  }

  /** A list holding a single course has no conflict, even if that course overlaps itself. */
  lemma {:induction false} SingleCourseNoConflict(c: Course, id: string)
    ensures !InConflict([c], id)
  {
  }

  /**
   * Three Monday courses 09:00-10:00, 09:30-10:30 and 10:15-11:00: the first
   * and the last do not overlap, yet all three ids are in conflict.
   */
  lemma ThreeWayConflict()
    ensures var a := Course("A", "A", 540, 600, ["Monday"]);
            var b := Course("B", "B", 570, 630, ["Monday"]);
            var c := Course("C", "C", 615, 660, ["Monday"]);
            !HasTimeConflict(a, c) && InConflict([a, b, c], "A") && InConflict([a, b, c], "B") && InConflict([a, b, c], "C")
  {
    var a := Course("A", "A", 540, 600, ["Monday"]);
    var b := Course("B", "B", 570, 630, ["Monday"]);
    var c := Course("C", "C", 615, 660, ["Monday"]);
    var cs := [a, b, c];
    assert HasTimeConflict(cs[0], cs[1]) && HasTimeConflict(cs[1], cs[0]);
    assert HasTimeConflict(cs[2], cs[1]);
  }

  // ---------------------------------------------------------------------
  // Create: field check and duplicate-name check
  // ---------------------------------------------------------------------

  /**
   * A creation request as the form sends it. A time is None when it is
   * `undefined` or `NaN`; `days` is None when the field is absent.
   */
  datatype NewCourse = NewCourse(name: string, startTime: Option<int>, endTime: Option<int>, days: Option<seq<string>>)

  /** JavaScript falsiness of a numeric field: missing, `NaN` or 0. */
  predicate FalsyTime(t: Option<int>) { t.None? || t.value == 0 }

  /** The store's field check: an empty name, a falsy time or an absent day list. An empty day list passes. */
  predicate MissingField(req: NewCourse)
  {
    req.name == "" || FalsyTime(req.startTime) || FalsyTime(req.endTime) || req.days.None?
  }

  /** The duplicate-name key: lower-cased, then trimmed. */
  function NameKey(name: string): string
  {
    Trim(ToLower(name))
  }

  /** Some stored course has the same name up to case and surrounding whitespace. */
  ghost predicate NameTaken(cs: seq<Course>, name: string)
  {
    exists c :: c in cs && NameKey(c.name) == NameKey(name)
  }

  /** `courses.find(...)`: the first course whose name key matches, if any. */
  function FindByName(cs: seq<Course>, name: string): (r: Option<Course>)
    ensures r.None? <==> !NameTaken(cs, name)
    ensures r.Some? ==> r.value in cs && NameKey(r.value.name) == NameKey(name)
  {
    if cs == [] then None
    else if NameKey(cs[0].name) == NameKey(name) then Some(cs[0])
    else
      var r := FindByName(cs[1..], name);
      assert forall c :: c in cs <==> c == cs[0] || c in cs[1..];
      r
  }

  /**
   * The fields are checked before the ordering of times and the size of the
   * day list are ever looked at: midnight is rejected as missing, while an
   * empty day list or a start after the end is let through.
   */
  lemma FieldCheckQuirks()
    ensures MissingField(NewCourse("Math 101", Some(0), Some(60), Some(["Monday"])))
    ensures !MissingField(NewCourse("Math 101", Some(600), Some(540), Some([])))
  {
  }

  // ---------------------------------------------------------------------
  // Delete and update
  // ---------------------------------------------------------------------

  /** `courses.filter(course => course._id !== pid)`. */
  function WithoutId(cs: seq<Course>, pid: string): (r: seq<Course>)
    ensures forall c: Course :: c in r <==> c in cs && c.id != pid
    ensures IsSubsequence(r, cs)
    ensures forall c: Course :: c.id != pid ==> multiset(r)[c] == multiset(cs)[c]
  {
    FilterFacts(cs, (c: Course) => c.id != pid);
    Filter(cs, (c: Course) => c.id != pid)
  }

  /** `courses.map(course => course._id === pid ? data : course)`. */
  function ReplaceById(cs: seq<Course>, pid: string, data: Course): (r: seq<Course>)
    ensures |r| == |cs|
    ensures forall i :: 0 <= i < |cs| ==> r[i] == if cs[i].id == pid then data else cs[i]
  {
    seq(|cs|, i requires 0 <= i < |cs| => if cs[i].id == pid then data else cs[i])
  }

  /** The ids of a course list, in order. */
  function Ids(cs: seq<Course>): (r: seq<string>)
    ensures |r| == |cs| && forall i :: 0 <= i < |cs| ==> r[i] == cs[i].id
  {
    seq(|cs|, i requires 0 <= i < |cs| => cs[i].id)
  }

  /** Deleting twice removes no more than deleting once, and leaves no course with that id. */
  lemma {:induction false} DeleteIdempotent(cs: seq<Course>, pid: string)
    ensures WithoutId(WithoutId(cs, pid), pid) == WithoutId(cs, pid)
    ensures pid !in Ids(WithoutId(cs, pid))
  {
    FilterIdempotent(cs, (c: Course) => c.id != pid);
  }

  /** A reply whose course keeps the id leaves the id list unchanged, and an unknown id changes nothing. */
  lemma UpdateKeepsIds(cs: seq<Course>, pid: string, data: Course)
    ensures data.id == pid ==> Ids(ReplaceById(cs, pid, data)) == Ids(cs)
    ensures pid !in Ids(cs) ==> ReplaceById(cs, pid, data) == cs
  {
    if pid !in Ids(cs) {
      forall i | 0 <= i < |cs| ensures cs[i].id != pid {
        assert Ids(cs)[i] == cs[i].id;
      }
    }
  }

  // ---------------------------------------------------------------------
  // The store
  // ---------------------------------------------------------------------

  /** What every store action returns: `{ success, message }`. */
  datatype Response = Response(success: bool, message: string)

  /** How the `POST /api/courses` round trip ended. */
  datatype CreateReply = NoConnection | NotOk(status: nat) | Created(data: Course)

  /** The JSON body of a delete reply. */
  datatype ApiReply = ApiReply(success: bool, message: string)

  /** The JSON body of an update reply; `data` is the course as stored. */
  datatype UpdateReply = UpdateReply(success: bool, message: string, data: Course)

  const FillAllFieldsMessage := "Please fill in all fields."
  const DuplicateNameMessage := "A course with this name already exists. Please choose a different name."
  const CreatedMessage := "Course created successfully"
  const NoConnectionMessage := "Failed to connect to server. Make sure the backend is running."

  class CourseStore {
    var courses: seq<Course>

    constructor ()
      ensures courses == []
    {
      courses := [];
    }

    /** `setCourses`: replaces the list wholesale. */
    method SetCourses(cs: seq<Course>)
      modifies this
      ensures courses == cs
    {
      courses := cs;
    }

    /**
     * `createCourse`: rejects a request with a missing field, then one whose
     * name duplicates a stored name; otherwise appends the course the server
     * returns, or reports the server's failure without touching the list.
     */
    method CreateCourse(req: NewCourse, reply: CreateReply) returns (r: Response)
      modifies this
      ensures r.success <==> !MissingField(req) && !NameTaken(old(courses), req.name) && reply.Created?
      ensures r.success ==> courses == old(courses) + [reply.data]
      ensures !r.success ==> courses == old(courses)
      ensures MissingField(req) ==> r.message == FillAllFieldsMessage
      ensures !MissingField(req) && NameTaken(old(courses), req.name) ==> r.message == DuplicateNameMessage
      ensures !MissingField(req) && !NameTaken(old(courses), req.name) ==>
                r.message == match reply
                             case NoConnection => NoConnectionMessage
                             case NotOk(status) => "Server error: " + NatToString(status)
                             case Created(_) => CreatedMessage
    {
      if MissingField(req) {
        return Response(false, FillAllFieldsMessage);
      }
      var existing := FindByName(courses, req.name);
      if existing.Some? {
        return Response(false, DuplicateNameMessage);
      }
      match reply
      case NoConnection =>
        r := Response(false, NoConnectionMessage);
      case NotOk(status) =>
        r := Response(false, "Server error: " + NatToString(status));
      case Created(data) =>
        courses := courses + [data];
        r := Response(true, CreatedMessage);
    }

    /** `deleteCourse`: on a successful reply drops every course with id `pid`, keeping the rest in order. */
    method DeleteCourse(pid: string, reply: ApiReply) returns (r: Response)
      modifies this
      ensures r == Response(reply.success, reply.message)
      ensures reply.success ==> courses == WithoutId(old(courses), pid)
      ensures !reply.success ==> courses == old(courses)
    {
      if !reply.success {
        return Response(false, reply.message);
      }
      courses := WithoutId(courses, pid);
      r := Response(true, reply.message);
    }

    /** `updateCourse`: on a successful reply swaps in the returned course wherever the id is `pid`. */
    method UpdateCourse(pid: string, reply: UpdateReply) returns (r: Response)
      modifies this
      ensures r == Response(reply.success, reply.message)
      ensures reply.success ==> courses == ReplaceById(old(courses), pid, reply.data)
      ensures !reply.success ==> courses == old(courses)
    {
      if !reply.success {
        return Response(false, reply.message);
      }
      courses := ReplaceById(courses, pid, reply.data);
      r := Response(true, reply.message);
    }

    /**
     * `getConflictingCourses`: scans every pair `i < j` and records the ids
     * of both courses of each conflicting pair the first time they are met.
     */
    method GetConflictingCourses() returns (ids: seq<string>)
      ensures NoDuplicates(ids)
      ensures forall id :: id in ids <==> InConflict(courses, id)
    {
      var cs := courses;
      ids := [];
      var i := 0;
      while i < |cs|
        invariant 0 <= i <= |cs|
        invariant NoDuplicates(ids)
        invariant forall id :: id in ids <==> ScannedInvolves(cs, i, 0, id)
      {
        var j := i + 1;
        while j < |cs|
          invariant i + 1 <= j <= |cs|
          invariant NoDuplicates(ids)
          invariant forall id :: id in ids <==> ScannedInvolves(cs, i, j, id)
        {
          if HasTimeConflict(cs[i], cs[j]) {
            if cs[i].id !in ids {
              ids := ids + [cs[i].id];
            }
            if cs[j].id !in ids {
              ids := ids + [cs[j].id];
            }
          }
          forall id ensures ScannedInvolves(cs, i, j + 1, id) <==> ScannedInvolves(cs, i, j, id) || PairInvolves(cs, i, j, id) {
            if ScannedInvolves(cs, i, j + 1, id) {
              var p, q :| 0 <= p < q < |cs| && (p < i || (p == i && q < j + 1)) && PairInvolves(cs, p, q, id);
              if !(p == i && q == j) {
                assert ScannedInvolves(cs, i, j, id);
              }
            }
          }
          j := j + 1;
        }
        forall id ensures ScannedInvolves(cs, i + 1, 0, id) <==> ScannedInvolves(cs, i, j, id) {
        }
        i := i + 1;
      }
      forall id ensures id in ids <==> InConflict(cs, id) {
        ScanCompleteIsInConflict(cs, id);
      }
    }
  }
}
