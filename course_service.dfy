/**
 * The course collection (src/services/courseService.js): normalising a
 * snapshot into course records with safe defaults, and the three writes on
 * the keyed store (update, create, delete).
 */
module CourseService {
  import opened Wrappers
  import opened Writes
  import opened JsValue

  /** A course as the pages see it after normalisation. */
  datatype Course = Course(
    id: string,
    title: Value,
    ageRange: Value,
    thumbnailUrl: Value,
    shortDescription: Value,
    whatYouWillLearn: seq<Value>,
    learningOutcomes: Value,
    duration: Value,
    schedule: Value,
    sessionLength: Value,
    prerequisites: Value,
    createdAt: Value,
    updatedAt: Value)

  /** `value || ''` */
  function OrEmpty(v: Value): Value {
    if Truthy(v) then v else Str("")
  }

  /** `value || null` */
  function OrNull(v: Value): Value {
    if Truthy(v) then v else Null
  }

  /** An array is kept as it is, another truthy value becomes its `Object.values`, a falsy one `[]`. */
  function LearningPoints(v: Value): (r: seq<Value>)
    ensures v.Arr? ==> r == v.items
    ensures !Truthy(v) ==> r == []
    ensures !v.Arr? && Truthy(v) ==>
      |r| == |OwnEntries(v)| && forall i :: 0 <= i < |r| ==> r[i] == OwnEntries(v)[i].val
  {
    if v.Arr? then v.items
    else if Truthy(v) then Values(OwnEntries(v))
    else []
  }

  /** A text field after `|| ''`: the raw value when truthy, else exactly `''`; never `null` or `undefined`. */
  predicate TextField(v: Value) {
    Truthy(v) || v == Str("")
  }

  /** A timestamp after `|| null`: the raw value when truthy, else `null`. */
  predicate Timestamp(v: Value) {
    Truthy(v) || v == Null
  }

  const TextFieldNames: seq<string> := [
    "title", "ageRange", "thumbnailUrl", "shortDescription", "learningOutcomes",
    "duration", "schedule", "sessionLength", "prerequisites"
  ]

  function TextFields(c: Course): seq<Value> {
    [c.title, c.ageRange, c.thumbnailUrl, c.shortDescription, c.learningOutcomes,
     c.duration, c.schedule, c.sessionLength, c.prerequisites]
  }

  /** The course with every default: what a `null` (or other falsy) entry becomes. */
  function EmptyCourse(key: string): Course {
    Course(key, Str(""), Str(""), Str(""), Str(""), [], Str(""), Str(""), Str(""), Str(""), Str(""), Null, Null)
  }

  /** One entry of the snapshot: `const course = data[key] || {}` and the defaulted fields. */
  function NormaliseCourse(key: string, raw: Value): (c: Course)
    ensures c.id == key
    // The next clause and the `Timestamp` clause are consequences of the exact ones after them, stated for callers.
    ensures forall i :: 0 <= i < |TextFields(c)| ==> TextField(TextFields(c)[i])
    ensures forall i :: 0 <= i < |TextFields(c)| && Truthy(Get(raw, TextFieldNames[i])) ==>
      TextFields(c)[i] == Get(raw, TextFieldNames[i])
    ensures forall i :: 0 <= i < |TextFields(c)| && !Truthy(Get(raw, TextFieldNames[i])) ==>
      TextFields(c)[i] == Str("")
    ensures c.whatYouWillLearn == LearningPoints(Get(raw, "whatYouWillLearn"))
    ensures Timestamp(c.createdAt) && Timestamp(c.updatedAt)
    ensures c.createdAt == if Truthy(Get(raw, "createdAt")) then Get(raw, "createdAt") else Null
    ensures c.updatedAt == if Truthy(Get(raw, "updatedAt")) then Get(raw, "updatedAt") else Null
    ensures !Truthy(raw) ==> c == EmptyCourse(key)
  {
    var course := if Truthy(raw) then raw else Obj([]);
    Course(
      key,
      OrEmpty(Get(course, "title")),
      OrEmpty(Get(course, "ageRange")),
      OrEmpty(Get(course, "thumbnailUrl")),
      OrEmpty(Get(course, "shortDescription")),
      LearningPoints(Get(course, "whatYouWillLearn")),
      OrEmpty(Get(course, "learningOutcomes")),
      OrEmpty(Get(course, "duration")),
      OrEmpty(Get(course, "schedule")),
      OrEmpty(Get(course, "sessionLength")),
      OrEmpty(Get(course, "prerequisites")),
      OrNull(Get(course, "createdAt")),
      OrNull(Get(course, "updatedAt")))
  }

  /** `processCourseData`: falsy data gives `[]`; otherwise one course per key, in key order, `id` = key. */
  function ProcessCourseData(data: Value): (r: seq<Course>)
    ensures !Truthy(data) ==> r == []
    ensures Truthy(data) ==> |r| == |OwnEntries(data)|
    ensures Truthy(data) ==> forall i :: 0 <= i < |r| ==> r[i].id == OwnEntries(data)[i].key
    ensures Truthy(data) ==> forall i :: 0 <= i < |r| && !Truthy(Get(data, OwnEntries(data)[i].key)) ==>
      r[i] == EmptyCourse(OwnEntries(data)[i].key)
    ensures Truthy(data) ==> forall i :: 0 <= i < |r| ==>
      r[i] == NormaliseCourse(OwnEntries(data)[i].key, Get(data, OwnEntries(data)[i].key))
  {
    if !Truthy(data) then []
    else
      var es := OwnEntries(data);
      seq(|es|, i requires 0 <= i < |es| => NormaliseCourse(es[i].key, Get(data, es[i].key)))
  }

  /** A normalised course written back as a plain object, with every field under its own name. */
  function CourseObject(c: Course): Value {
    Obj([
      Entry("id", Str(c.id)),
      Entry("title", c.title),
      Entry("ageRange", c.ageRange),
      Entry("thumbnailUrl", c.thumbnailUrl),
      Entry("shortDescription", c.shortDescription),
      Entry("whatYouWillLearn", Arr(c.whatYouWillLearn)),
      Entry("learningOutcomes", c.learningOutcomes),
      Entry("duration", c.duration),
      Entry("schedule", c.schedule),
      Entry("sessionLength", c.sessionLength),
      Entry("prerequisites", c.prerequisites),
      Entry("createdAt", c.createdAt),
      Entry("updatedAt", c.updatedAt)])
  }

  /** The written-back object is a well-formed JavaScript object: no field name occurs twice. */
  lemma CourseObjectDistinct(c: Course)
    ensures DistinctKeys(CourseObject(c).entries)
  {
  }

  /** Every field of the written-back object reads as the course's own field. */
  lemma CourseObjectFields(c: Course)
    ensures Get(CourseObject(c), "id") == Str(c.id)
    ensures Get(CourseObject(c), "title") == c.title
    ensures Get(CourseObject(c), "ageRange") == c.ageRange
    ensures Get(CourseObject(c), "thumbnailUrl") == c.thumbnailUrl
    ensures Get(CourseObject(c), "shortDescription") == c.shortDescription
    ensures Get(CourseObject(c), "whatYouWillLearn") == Arr(c.whatYouWillLearn)
    ensures Get(CourseObject(c), "learningOutcomes") == c.learningOutcomes
    ensures Get(CourseObject(c), "duration") == c.duration
    ensures Get(CourseObject(c), "schedule") == c.schedule
    ensures Get(CourseObject(c), "sessionLength") == c.sessionLength
    ensures Get(CourseObject(c), "prerequisites") == c.prerequisites
    ensures Get(CourseObject(c), "createdAt") == c.createdAt
    ensures Get(CourseObject(c), "updatedAt") == c.updatedAt
  {
    var es := CourseObject(c).entries;
    CourseObjectDistinct(c);
    LookupAt(es, 0);
    LookupAt(es, 1);
    LookupAt(es, 2);
    LookupAt(es, 3);
    LookupAt(es, 4);
    LookupAt(es, 5);
    LookupAt(es, 6);
    LookupAt(es, 7);
    LookupAt(es, 8);
    LookupAt(es, 9);
    LookupAt(es, 10);
    LookupAt(es, 11);
    LookupAt(es, 12);
  }

  /** Normalising is idempotent: a normalised course, read back under the same key, is unchanged. */
  lemma NormaliseIdempotent(key: string, raw: Value)
    ensures var c := NormaliseCourse(key, raw); NormaliseCourse(key, CourseObject(c)) == c
  {
    CourseObjectFields(NormaliseCourse(key, raw));
  }

  // ------------------------------------------------------------- writes

  /** One stored course: its field map. */
  type Fields = map<string, Value>

  /** `if (courseId)` on an optional string id. */
  predicate HasId(courseId: Option<string>) {
    courseId.Some? && courseId.value != ""
  }

  /** `update(courseRef, { ...courseData, updatedAt: now })` on the stored fields. */
  function Updated(stored: Fields, courseData: Fields, now: int): (r: Fields)
    ensures r.Keys == stored.Keys + courseData.Keys + {"updatedAt"}
    ensures r["updatedAt"] == Num(now)
    ensures forall k :: k in courseData && k != "updatedAt" ==> r[k] == courseData[k]
    ensures forall k :: k in stored && k !in courseData && k != "updatedAt" ==> r[k] == stored[k]
  {
    stored + courseData + map["updatedAt" := Num(now)]
  }

  /** `set(newRef, { ...courseData, createdAt: now, updatedAt: now })` */
  function Created(courseData: Fields, now: int): (r: Fields)
    ensures r.Keys == courseData.Keys + {"createdAt", "updatedAt"}
    ensures r["createdAt"] == Num(now) && r["updatedAt"] == Num(now)
    ensures forall k :: k in courseData && k != "createdAt" && k != "updatedAt" ==> r[k] == courseData[k]
  {
    courseData + map["createdAt" := Num(now), "updatedAt" := Num(now)]
  }

  /** The `courses` collection of the store, keyed by course id. */
  class CourseStore {
    var courses: map<string, Fields>

    constructor(initial: map<string, Fields>)
      ensures courses == initial
    {
      courses := initial;
    }

    /**
     * `saveCourse(courseId, courseData)`. With an id: merge the data into that
     * key only, stamp `updatedAt`, and resolve to the same id. Without one:
     * store the data under the key `push` generated, stamp both timestamps,
     * and resolve to that key. A rejected write leaves the store as it was.
     */
    method SaveCourse(courseId: Option<string>, courseData: Fields, now: int, pushKey: string, outcome: WriteOutcome)
      returns (r: Option<string>)
      requires !HasId(courseId) ==> pushKey != "" && pushKey !in courses
      modifies this
      ensures outcome == WriteFailed ==> r == None && courses == old(courses)
      ensures outcome == WriteSucceeded && HasId(courseId) ==>
        && r == courseId
        && courses == old(courses)[courseId.value :=
             Updated(if courseId.value in old(courses) then old(courses)[courseId.value] else map[], courseData, now)]
      ensures outcome == WriteSucceeded && !HasId(courseId) ==>
        && r == Some(pushKey)
        && pushKey !in old(courses)
        && courses == old(courses)[pushKey := Created(courseData, now)]
      ensures outcome == WriteSucceeded ==> r.Some? && courses.Keys == old(courses).Keys + {r.value}
      ensures forall k :: k in old(courses) && (r.None? || k != r.value) ==> k in courses && courses[k] == old(courses)[k]
    {
      if outcome == WriteFailed {
        return None;
      }
      if HasId(courseId) {
        var key := courseId.value;
        var stored := if key in courses then courses[key] else map[];
        courses := courses[key := Updated(stored, courseData, now)];
        return courseId;
      }
      courses := courses[pushKey := Created(courseData, now)];
      return Some(pushKey);
    }

    /** `deleteCourse(courseId)`: a falsy id does nothing; otherwise exactly that key is removed. */
    method DeleteCourse(courseId: Option<string>, outcome: WriteOutcome) returns (rejected: bool)
      modifies this
      ensures !HasId(courseId) ==> !rejected && courses == old(courses)
      ensures HasId(courseId) ==> rejected == (outcome == WriteFailed)
      ensures HasId(courseId) && outcome == WriteFailed ==> courses == old(courses)
      ensures HasId(courseId) && outcome == WriteSucceeded ==>
        courses == old(courses) - {courseId.value} && courseId.value !in courses
    {
      if !HasId(courseId) {
        return false;
      }
      if outcome == WriteFailed {
        return true;
      }
      courses := courses - {courseId.value};
      return false;
    }
  }
}
