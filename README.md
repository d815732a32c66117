# ConflictCalendar conflict engine, in Dafny

ConflictCalendar lets a student enter courses (name, start and end time, and
week days) and shows which courses clash. This project models the client-side
core of that application and proves what it promises:

- **the course store** (`frontend/src/store/course.ts`):
  - the `Course` record;
  - the pairwise overlap test `hasTimeConflict`;
  - the conflict scan `getConflictingCourses`;
  - the list updates done by `createCourse`, `deleteCourse` and `updateCourse`.

  The store is the class `Courses.CourseStore`, holding `courses: seq<Course>`. Its methods reassign that field. The server's reply to each request is a parameter (`CreateReply`, `ApiReply`, `UpdateReply`).
- **the calendar projection** (`frontend/src/components/Calendar.tsx`): the
  nested loops that turn every course and every recognised day name into one
  calendar event. The event is placed on that day's offset within the week and
  carries the course's start and end split into hours and minutes.
- **the entry form** (`frontend/src/pages/HomePage.tsx`):
  - the Monday–Friday day list;
  - the checkbox handler;
  - the conversions between `HH:MM` text and minutes since midnight.
- **the course card** (`frontend/src/components/CourseCard.tsx`):
  - the card's own `minutesToTime`;
  - the short and long day/time summaries;
  - the conflict highlight;
  - the guarded delete.

Files, in dependency order:

| file | contents |
|---|---|
| `wrappers.dfy` | `Option` |
| `seqs.dfy` | `Filter`, `Join`, subsequence and no-duplicates predicates |
| `text.dfy` | the JavaScript string and number primitives the core relies on: `toString`, `padStart(2, '0')`, `%`, `trim`, `toLowerCase`, `split`, `Number` |
| `weekdays.dfy` | the seven day names of the course schema (`backend/models/course.model.ts:57`) |
| `courses.dfy` | the course store |
| `calendar.dfy` | the calendar projection |
| `home_page.dfy` | the entry form |
| `course_card.dfy` | the course card |

Two behaviours of the store's field check are modelled as written, because
nothing elsewhere in the code shows they are unintended:
- the falsy test rejects a start or end time of 0 (midnight) as a missing field;
- it lets through an empty day list and a start time at or after the end time.

`Courses.FieldCheckQuirks` exhibits both.

The records of the source are datatypes:
- `Courses.Course` is the `Course` interface (`frontend/src/store/course.ts:3-9`), with `_id` as `id`.
- `Courses.NewCourse` is the creation request (`Omit<Course, "_id">`, `frontend/src/store/course.ts:14`). Its times and day list are optional, so that falsy and absent fields can be expressed.
- `Calendar.CalendarEvent` is the object pushed for each event (`frontend/src/components/Calendar.tsx:60-67`). Its start and end are `Calendar.EventTime` values, a day offset within the week plus an hour and a minute.
- `Courses.Response` is the `{ success, message }` result of every store action.

## Model

| member | source | states |
|---|---|---|
| Courses.SharesDay | frontend/src/store/course.ts:25 | `days1.some(day => days2.includes(day))`, scanning the first list front to back; `SharesDayIff` proves it is "some day name is in both lists" |
| Courses.HasTimeConflict | frontend/src/store/course.ts:23-37 | two courses conflict when they share a day name and `start1 < end2 && start2 < end1`; the four lemmas below state its symmetry, the disjoint-days case and the half-open overlap |
| Courses.SharesDayIff | frontend/src/store/course.ts:25-26 | `days1.some(day => days2.includes(day))` holds exactly when some day name is in both lists |
| Courses.ConflictSymmetric | frontend/src/store/course.ts:23-37 | the overlap test gives the same answer with its arguments swapped |
| Courses.DisjointDaysNeverConflict | frontend/src/store/course.ts:25-26 | courses with no day name in common never conflict, whatever their times |
| Courses.SharedDayConflictIsOverlap | frontend/src/store/course.ts:30-36 | on a shared day the test is exactly the half-open overlap `start1 < end2 && start2 < end1`; back-to-back courses do not conflict |
| Courses.SelfOverlap | frontend/src/store/course.ts:23-37 | a course with a day and a non-empty time range overlaps itself, which is why the scan never compares a course with its own index |
| Courses.InConflict | frontend/src/store/course.ts:112-123 | what the scan is meant to find: an id carried by the course at some index that conflicts with the course at a different index |
| Courses.ScanCompleteIsInConflict | frontend/src/store/course.ts:112-123 | the pairs `i < j` the scan visits find an id exactly when its course conflicts with the course at some other index |
| Courses.InConflictIsBag | frontend/src/store/course.ts:112-123 | whether an id is in conflict depends only on the multiset of courses |
| Courses.ConflictPermutationInvariant | frontend/src/store/course.ts:108-126 | reordering the course list does not change which ids are in conflict |
| Courses.SingleCourseNoConflict | frontend/src/store/course.ts:112-113 | a list with one course has nothing in conflict, even when that course overlaps itself |
| Courses.ThreeWayConflict | frontend/src/store/course.ts:108-126 | a chain of three Monday courses puts all three ids in conflict though the first and last do not overlap |
| Courses.CourseStore.GetConflictingCourses | frontend/src/store/course.ts:108-126 | the returned ids have no duplicates and contain an id exactly when its course conflicts with a course at another index |
| Courses.NameKey | frontend/src/store/course.ts:49 | the duplicate-name key: the name lower-cased, then trimmed |
| Courses.FindByName | frontend/src/store/course.ts:48-50 | `find` returns nothing exactly when no stored name matches after lower-casing and trimming; a found course is in the list and matches |
| Courses.FalsyTime | frontend/src/store/course.ts:43 | a time field is falsy when it is missing or `NaN` (None) or 0 |
| Courses.MissingField | frontend/src/store/course.ts:43 | the field check fails on an empty name, a falsy start or end time, or an absent day list; an empty day list passes |
| Courses.FieldCheckQuirks | frontend/src/store/course.ts:43 | a start time of 0 is treated as a missing field; an empty day list with the start after the end passes the check |
| Courses.CourseStore.CreateCourse | frontend/src/store/course.ts:42-75 | success exactly when no field is missing, the name is not taken and the server created the course. On success the returned course is appended and the earlier entries are kept; otherwise the list is unchanged. Each outcome has its own message, including `Server error: <status>` |
| Courses.WithoutId | frontend/src/store/course.ts:88 | the filter keeps exactly the courses whose id is not `pid`, in their order and with their multiplicities |
| Courses.ReplaceById | frontend/src/store/course.ts:102-104 | the map keeps the length and replaces exactly the entries whose id is `pid` |
| Courses.CourseStore.DeleteCourse | frontend/src/store/course.ts:81-90 | returns the server's success and message; on success the list becomes the filtered list, otherwise it is unchanged |
| Courses.CourseStore.UpdateCourse | frontend/src/store/course.ts:91-107 | returns the server's success and message; on success the list becomes the mapped list, otherwise it is unchanged |
| Courses.DeleteIdempotent | frontend/src/store/course.ts:88 | deleting the same id twice equals deleting it once, and no course with that id remains |
| Courses.UpdateKeepsIds | frontend/src/store/course.ts:102-104 | an update whose course keeps the id leaves the id list unchanged; an unknown id changes nothing |
| Courses.CourseStore.SetCourses | frontend/src/store/course.ts:41 | the list is replaced wholesale |
| Weekdays.Parse | backend/models/course.model.ts:57 | a parsed day name is the name of the weekday it parses to |
| Weekdays.ParseName | backend/models/course.model.ts:57 | every weekday's name parses back to it and is one of the schema's seven names |
| Weekdays.ParseSchema | backend/models/course.model.ts:57 | a string parses exactly when it is one of the schema's seven names |
| Calendar.DayNumber | frontend/src/components/Calendar.tsx:25-36 | `dayMap[day]`, or None for a name the table does not hold; `DayNumberFacts` gives its seven entries |
| Calendar.DayNumberFacts | frontend/src/components/Calendar.tsx:25-36 | the day table recognises exactly the seven weekday names, Sunday as 0 through Saturday as 6, every offset at most 6 |
| Calendar.DayNumberInjective | frontend/src/components/Calendar.tsx:25-33 | distinct weekdays get distinct offsets |
| Calendar.SplitMinutes | frontend/src/components/Calendar.tsx:43-46 | for a non-negative time, `hours * 60 + minutes` is the time with `0 <= minutes < 60`; below 1440 the hour is below 24 |
| Calendar.At | frontend/src/components/Calendar.tsx:39-58 | an event time: the day offset within the week, with the course minutes split by `SplitMinutes` |
| Calendar.MakeEvent | frontend/src/components/Calendar.tsx:60-67 | the pushed event: id `_id + "-" + day`, the course name as title, start and end on the day offset, the course as resource, and the flag `conflictingCourseIds.includes(_id)` |
| Calendar.DayEvents | frontend/src/components/Calendar.tsx:23-68 | the inner `course.days.forEach`: one event per day name found in the table, in day-list order, none for the rest |
| Calendar.Projection | frontend/src/components/Calendar.tsx:22-69 | the outer `courses.forEach`: the events of each course in turn, course after course |
| Calendar.Events | frontend/src/components/Calendar.tsx:19-72 | the nested loops over courses and their days produce exactly the course-major, day-ordered projection |
| Calendar.KnownDays | frontend/src/components/Calendar.tsx:35-36 | the day names that yield events are exactly those in the day table |
| Calendar.DayEventsAreKnownDays | frontend/src/components/Calendar.tsx:23-67 | a course yields one event per recognised day name, in the order of its day list, and none for an unknown name |
| Calendar.ProjectionCount | frontend/src/components/Calendar.tsx:22-23 | the number of events is the total number of recognised day entries over all courses |
| Calendar.ProjectionAppend | frontend/src/components/Calendar.tsx:22-23 | events come course by course: projecting two lists one after the other concatenates their events |
| Calendar.ProjectionEventShape | frontend/src/components/Calendar.tsx:39-66 | every event comes from a listed course and one of its recognised days. Its id is the course id, `-` and the day, and its title is the course name. It sits on that day's offset, its clock times split the course's minutes, and its flag says whether the id is in the conflict list |
| Calendar.EventFlagMeansConflict | frontend/src/components/Calendar.tsx:66 | given the store's conflict list, an event is flagged exactly when its course is in conflict |
| Calendar.ThreeDaysThreeEvents | frontend/src/components/Calendar.tsx:22-67 | a course on Monday, Wednesday and Friday yields exactly three events |
| HomePage.FormDaysAreSchemaDays | frontend/src/pages/HomePage.tsx:8 | the form's five days are schema day names, none repeated |
| HomePage.ToggleDay | frontend/src/pages/HomePage.tsx:24-31 | ticking appends the day at the end; clearing removes every occurrence and keeps the other days in order with their counts |
| HomePage.CheckThenUncheck | frontend/src/pages/HomePage.tsx:24-31 | ticking then clearing a day that was not selected gives back the original list |
| HomePage.HoursAndMinutes | frontend/src/pages/HomePage.tsx:35-36 | `parts.map(Number)` then `hours * 60 + minutes`: `NaN` (None) when either of the first two pieces is missing or does not read as a number; any pieces after the second are ignored |
| HomePage.MinutesToTime | frontend/src/pages/HomePage.tsx:39-44 | `00:00` for 0; otherwise the floored hours and the JavaScript remainder of the minutes, each zero-padded to two characters, around a colon. `MinutesToTimeShape`, `MinutesRoundTrip` and `TextRoundTrip` state its properties |
| HomePage.TimeToMinutes | frontend/src/pages/HomePage.tsx:33-37 | the empty string reads as 0, and for the digit text a time input supplies any value read is non-negative |
| HomePage.TimeToMinutesDigits | frontend/src/pages/HomePage.tsx:35-36 | digits on each side of one colon read as hours times 60 plus minutes (exact in JavaScript while the values stay below 2^53) |
| HomePage.MinutesToTimeShape | frontend/src/pages/HomePage.tsx:39-44 | for `0 <= m < 6000` the text is five characters. Its two digits, a colon and two digits read back as `m / 60` and `m % 60`; 0 gives `00:00` |
| HomePage.MinutesRoundTrip | frontend/src/pages/HomePage.tsx:33-44 | minutes written as text and read back are the same minutes, for `0 <= m < 6000` |
| HomePage.TextRoundTrip | frontend/src/pages/HomePage.tsx:33-44 | two-digit hours and two-digit minutes below 60, read as minutes and written back, give the same `HH:MM` text |
| HomePage.ClockText | frontend/src/pages/HomePage.tsx:39-44 | whole hours and minutes below 60 are written as the padded hours, a colon and the padded minutes |
| CourseCard.MinutesToTime | frontend/src/components/CourseCard.tsx:23-27 | the card's conversion: the same padding as the form's, but with no special case for 0; `AgreesWithForm` proves the two equal |
| CourseCard.Abbreviation | frontend/src/components/CourseCard.tsx:68 | `day.slice(0, 3)`: the first three characters, or the whole name when it is shorter |
| CourseCard.Abbreviations | frontend/src/components/CourseCard.tsx:68 | `course.days.map(day => day.slice(0, 3))`: same length, each entry the abbreviation of the day at that index |
| CourseCard.AgreesWithForm | frontend/src/components/CourseCard.tsx:23-27 | the card's conversion, which has no special case for 0, writes every number of minutes exactly as the form's does |
| CourseCard.AbbreviationIsPrefix | frontend/src/components/CourseCard.tsx:68 | `day.slice(0, 3)` is a prefix of the name of at most three characters, and the whole name when it is that short |
| CourseCard.AbbreviationDetermines | frontend/src/components/CourseCard.tsx:68 | no two weekdays share an abbreviation |
| CourseCard.AbbreviationsDetermine | frontend/src/components/CourseCard.tsx:68 | two lists of weekdays with the same abbreviations are the same list |
| CourseCard.AbbreviationsShorter | frontend/src/components/CourseCard.tsx:68 | abbreviating never adds characters to the day list |
| CourseCard.TimeRange | frontend/src/components/CourseCard.tsx:68 | the start and end written by the card's conversion, separated by ` - ` |
| CourseCard.ShortSummary | frontend/src/components/CourseCard.tsx:68 | the narrow-screen line: the abbreviations joined by `, `, then a bar between spaces and the time range |
| CourseCard.LongSummary | frontend/src/components/CourseCard.tsx:71 | the wide-screen line: the full day names joined by `, `, then a bar between spaces and the time range |
| CourseCard.SummariesCompared | frontend/src/components/CourseCard.tsx:68-71 | the short and long summaries end with the same separator and time range, and the short one is never the longer |
| CourseCard.TimeRangeReadsBack | frontend/src/components/CourseCard.tsx:68-71 | below 100 hours the time range is `HH:MM - HH:MM`, and each half reads back through the form's conversion as the stored minutes |
| CourseCard.HasConflict | frontend/src/components/CourseCard.tsx:20-21 | the card is highlighted exactly when its course conflicts with another stored course |
| CourseCard.LoneCardNotHighlighted | frontend/src/components/CourseCard.tsx:20-21 | when its course is the only one stored, the card is not highlighted |
| CourseCard.HandleDeleteCourse | frontend/src/components/CourseCard.tsx:29-35 | without a token nothing is sent and nothing changes; with one, the store's delete runs and its outcome is returned |
| Text.IntToString | frontend/src/pages/HomePage.tsx:43 | `toString()` of an integer below 10^21 in magnitude (exact below 2^53): the digits of a non-negative value read back as it; a negative value gives a minus sign followed by the digits of its magnitude |
| Text.PadStart2 | frontend/src/pages/HomePage.tsx:43 | `padStart(2, '0')`: text of two or more characters is kept; shorter text becomes two characters, zeros on the left and the text at the end |
| Text.NatToString | frontend/src/pages/HomePage.tsx:43 | `toString()` of a non-negative integer below 10^21 (exact below 2^53) is its decimal digits, with no leading zero, and reads back as the number |
| Text.PadStart2OfValue | frontend/src/pages/HomePage.tsx:43 | a two-digit string is the padded text of its own value |
| Text.JsRem | frontend/src/pages/HomePage.tsx:42 | the JavaScript remainder lies in `[0, b)` for a non-negative dividend and in `(-b, 0]` for a negative one |
| Text.JsRemOdd | frontend/src/pages/HomePage.tsx:42 | the JavaScript remainder of `-a` is minus the remainder of `a` |
| Text.Trim | frontend/src/store/course.ts:49 | `trim()`: leading then trailing JavaScript whitespace removed; `TrimFacts` characterises the result |
| Text.TrimFacts | frontend/src/store/course.ts:49 | `trim` returns a middle part of the text that neither starts nor ends with whitespace; everything removed before and after it is whitespace |
| Text.ToLower | frontend/src/store/course.ts:49 | lower-casing keeps the length and maps each ASCII capital to its small letter and leaves the other characters alone |
| Text.Split | frontend/src/pages/HomePage.tsx:35 | `split(':')` gives at least one piece; no piece contains a colon, and joining the pieces with colons gives back the text |
| Text.SplitPair | frontend/src/pages/HomePage.tsx:35 | text with exactly one colon splits into the part before it and the part after it |
| Text.NumberOf | frontend/src/pages/HomePage.tsx:35 | `Number` of a digit string is its decimal value (JavaScript gives the exact value below 2^53), and any number it reads is non-negative |
| Seqs.Filter | frontend/src/store/course.ts:88 | `Array.prototype.filter`: the elements that pass, in order; `FilterFacts` proves it is a subsequence keeping each passing element's count and dropping every other |
| Seqs.Join | frontend/src/components/CourseCard.tsx:68 | `Array.prototype.join(sep)`: empty for no parts, otherwise the parts with `sep` between neighbours, of length the parts' total plus one separator per gap, starting with the first part |

## Left out

- Network requests are not modelled: each server round trip is replaced by its reply, given as a parameter. Their `async` ordering is not modelled either.
- `fetchCourses` (`frontend/src/store/course.ts:76-80`) only copies a server list into the store; it is covered by `SetCourses`.
- Courses.CourseStore.DeleteCourse: a rejected `fetch` (no connection) makes the source's promise reject with no message. That path is not modelled.
- Courses.CourseStore.UpdateCourse: a rejected `fetch` is not modelled either.
- Courses.CourseStore.GetConflictingCourses: only the set of ids and the absence of duplicates are stated. The first-appearance order of the ids is not stated, because both callers (`frontend/src/components/Calendar.tsx:66` and `frontend/src/components/CourseCard.tsx:21`) only test membership with `includes`, so the order is never observed.
- `NaN` times in a stored course are not modelled: `Course` times are integers. In a creation request, `NaN` and `undefined` are the `None` of an `Option<int>`.
- HomePage.TimeToMinutes: never reads a negative value, because `Text.NumberOf` rejects signs; the source reads `"-1:30"` as -30. A time input only supplies digit text, so this case does not arise from the form.
- Text.NumberOf: models `Number` on trimmed text only for the empty string (0) and plain decimal digits. Signs, decimal points, exponents, `Infinity` and the hexadecimal, binary and octal forms (`0x`, `0b`, `0o`) read as `NaN` (None) here, though JavaScript accepts them. JavaScript numbers are IEEE doubles, so `Number` rounds a digit string above 2^53 to the nearest double (`"9007199254740993"` gives 9007199254740992). The model returns the exact unbounded value. Minute values from the form's time inputs stay far below that limit.
- Text.NatToString: models `toString()` on unbounded integers, always as plain decimal digits. JavaScript writes 10^21 and above in exponent form (`"1e+21"`), and a double holds no integer above 2^53 exactly. Hours and minutes written by the form and the card stay far below both limits.
- Text.IntToString: as for `Text.NatToString`, exact unbounded decimal text with a minus sign for negatives; the exponent form and the double rounding at large magnitudes are not modelled.
- HomePage.TimeToMinutesDigits: the arithmetic `hours * 60 + minutes` is exact on unbounded integers; in JavaScript it is exact only while the result stays below 2^53, which time-input text always does.
- CourseCard.Abbreviation: a Dafny string is a sequence of Unicode scalar values, while `slice(0, 3)` and `.length` count UTF-16 code units. The abbreviation and the length comparisons in `CourseCard.AbbreviationsShorter` and `CourseCard.SummariesCompared` therefore differ from the source for day strings with characters outside the Basic Multilingual Plane. The seven schema day names are ASCII, so they are unaffected.
- Text.ToLower: models `toLowerCase` on ASCII letters only. Other Unicode case mappings are not modelled.
- Calendar: the dates come from `moment` and JavaScript `Date`, whose week start depends on the locale and the time zone. An event time is modelled as (days after the week start, hour, minute).
- Calendar: `moment.set` rolls an hour of 24 or more into the next day; that roll-over is not modelled.
- Calendar: the day table is a plain object, so inherited keys such as `toString` would also be found there. Only the seven own keys are modelled.
- Calendar: the display window (7 AM to 10 PM, hourly slots) and the red/blue styling only affect rendering. They are not modelled.
- JSX rendering, toast notifications and the form reset in `handleAddProduct` (`frontend/src/pages/HomePage.tsx:46-71`) are not modelled; that handler only forwards the form's course to `createCourse`.
- CourseCard.HandleDeleteCourse: the card passes the token as a second argument that the store's `deleteCourse` ignores. The model drops it after the token check.
