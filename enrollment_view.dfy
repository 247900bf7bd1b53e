/**
 * The view-state derivations both pages share (src/pages/Dashboard.jsx and
 * src/pages/ApplicationsPage.jsx each write them out): the filter state and
 * its field-merge, the three-clause filter predicate, selection with
 * fallback to the first filtered record, and auto-selection of the first
 * loaded record.
 */
module EnrollmentView {
  import opened Wrappers
  import opened JsText
  import opened JsValue

  // ------------------------------------------------------------- filters

  datatype Filters = Filters(search: string, course: string, status: string, timeRange: string)

  const DefaultFilters := Filters("", "all", "all", "30d")

  datatype FilterField = SearchField | CourseField | StatusField | TimeRangeField

  function FieldOf(f: Filters, field: FilterField): string {
    match field
    case SearchField => f.search
    case CourseField => f.course
    case StatusField => f.status
    case TimeRangeField => f.timeRange
  }

  /** `{ ...prev, [field]: value }`: the filter controls and the time-range chips each send one field. */
  function MergeFilter(prev: Filters, field: FilterField, value: string): (r: Filters)
    ensures FieldOf(r, field) == value
    ensures forall other :: other != field ==> FieldOf(r, other) == FieldOf(prev, other)
  {
    match field
    case SearchField => prev.(search := value)
    case CourseField => prev.(course := value)
    case StatusField => prev.(status := value)
    case TimeRangeField => prev.(timeRange := value)
  }

  // ------------------------------------------------------------ predicate

  /** `field?.toLowerCase().includes(query.toLowerCase())`; a field that is not a string is a non-match. */
  predicate FieldIncludes(e: Value, field: string, query: string) {
    Get(e, field).Str? && Includes(Lower(Get(e, field).s), Lower(query))
  }

  predicate MatchesSearch(e: Value, query: string) {
    FieldIncludes(e, "childName", query) || FieldIncludes(e, "parentName", query) || FieldIncludes(e, "id", query)
  }

  predicate MatchesCourse(e: Value, course: string) {
    course == "all" || Get(e, "courseId") == Str(course)
  }

  predicate MatchesStatus(e: Value, status: string) {
    status == "all" || Get(e, "status") == Str(status)
  }

  /** All three clauses; `timeRange` is not read. */
  predicate Matches(e: Value, f: Filters) {
    MatchesSearch(e, f.search) && MatchesCourse(e, f.course) && MatchesStatus(e, f.status)
  }

  /** Some search field is a string, so an empty query matches it. */
  predicate HasSearchText(e: Value) {
    Get(e, "childName").Str? || Get(e, "parentName").Str? || Get(e, "id").Str?
  }

  /** The search ignores case on both sides: only the lowered query matters. */
  lemma SearchIgnoresQueryCase(e: Value, query: string)
    ensures MatchesSearch(e, query) <==> MatchesSearch(e, Lower(query))
  {
    LowerIdempotent(query);
  }

  /** The lowered query occurs somewhere in the lowered text of a string field. */
  ghost predicate FieldContains(e: Value, field: string, query: string) {
    Get(e, field).Str? && exists i :: OccursAt(Lower(Get(e, field).s), Lower(query), i)
  }

  /** One search field matches exactly when it is a string in which the lowered query occurs. */
  lemma FieldIncludesByOccurrence(e: Value, field: string, query: string)
    ensures FieldIncludes(e, field, query) <==> FieldContains(e, field, query)
  {
    if Get(e, field).Str? {
      IncludesIffOccurs(Lower(Get(e, field).s), Lower(query));
    }
  }

  /**
   * The search clause holds exactly when the lowered query occurs in the
   * lowered child name, parent name or id; so the empty query matches
   * exactly the records with some string search field.
   */
  lemma SearchByOccurrence(e: Value, query: string)
    ensures MatchesSearch(e, query) <==>
      FieldContains(e, "childName", query) || FieldContains(e, "parentName", query) || FieldContains(e, "id", query)
    ensures MatchesSearch(e, "") <==> HasSearchText(e)
  {
    FieldIncludesByOccurrence(e, "childName", query);
    FieldIncludesByOccurrence(e, "parentName", query);
    FieldIncludesByOccurrence(e, "id", query);
    if Get(e, "childName").Str? {
      assert OccursAt(Lower(Get(e, "childName").s), Lower(""), 0);
      FieldIncludesByOccurrence(e, "childName", "");
    }
    if Get(e, "parentName").Str? {
      assert OccursAt(Lower(Get(e, "parentName").s), Lower(""), 0);
      FieldIncludesByOccurrence(e, "parentName", "");
    }
    if Get(e, "id").Str? {
      assert OccursAt(Lower(Get(e, "id").s), Lower(""), 0);
      FieldIncludesByOccurrence(e, "id", "");
    }
  }

  // --------------------------------------------------------------- filter

  /** `enrollments.filter(matches)` */
  function Filter(list: seq<Value>, f: Filters): (r: seq<Value>)
    ensures |r| <= |list|
    ensures forall x :: x in r ==> x in list && Matches(x, f)
    ensures forall x :: x in list && Matches(x, f) ==> x in r
  {
    if list == [] then []
    else (if Matches(list[0], f) then [list[0]] else []) + Filter(list[1..], f)
  }

  /**
   * Filtering distributes over concatenation: with the membership clauses of
   * `Filter`, the filtered list is the input with the non-matching records
   * struck out, in the original order.
   */
  lemma {:induction false} FilterConcat(a: seq<Value>, b: seq<Value>, f: Filters)
    ensures Filter(a + b, f) == Filter(a, f) + Filter(b, f)
  {
    if a == [] {
      assert a + b == b;
    } else {
      assert (a + b)[1..] == a[1..] + b;
      FilterConcat(a[1..], b, f);
    }
  }

  /** With the default filters every record that has a string search field is kept, in order. */
  lemma {:induction false} DefaultFiltersKeepAll(list: seq<Value>, timeRange: string)
    requires forall x :: x in list ==> HasSearchText(x)
    ensures Filter(list, DefaultFilters.(timeRange := timeRange)) == list
  {
    if list != [] {
      SearchByOccurrence(list[0], "");
      DefaultFiltersKeepAll(list[1..], timeRange);
    }
  }

  /** The time-range filter is inert: it never changes the filtered list. */
  lemma {:induction false} TimeRangeIgnored(list: seq<Value>, f: Filters, t: string)
    ensures Filter(list, MergeFilter(f, TimeRangeField, t)) == Filter(list, f)
  {
    if list != [] {
      TimeRangeIgnored(list[1..], f, t);
    }
  }

  // ------------------------------------------------------------ selection

  /** `list.find((record) => record.id === id)` */
  function FindById(list: seq<Value>, id: Value): (r: Option<Value>)
    ensures r.None? <==> forall x :: x in list ==> Get(x, "id") != id
    ensures r.Some? ==> r.value in list && Get(r.value, "id") == id
  {
    if list == [] then None
    else if Get(list[0], "id") == id then Some(list[0])
    else FindById(list[1..], id)
  }

  /** `find` yields the FIRST record whose id matches. */
  lemma {:induction false} FindByIdFirst(list: seq<Value>, id: Value, i: int)
    requires 0 <= i < |list| && Get(list[i], "id") == id
    requires forall j :: 0 <= j < i ==> Get(list[j], "id") != id
    ensures FindById(list, id) == Some(list[i])
  {
    if i > 0 {
      assert Get(list[0], "id") != id;
      assert forall j :: 0 <= j < i - 1 ==> list[1..][j] == list[j + 1];
      FindByIdFirst(list[1..], id, i - 1);
    }
  }

  /**
   * The active record: `undefined` when nothing is filtered, else the first
   * filtered record whose `id` equals the selection, else the first filtered
   * record. Records are objects and so truthy, which makes `find(...) ||
   * filtered[0]` fall back only when `find` yields `undefined`.
   */
  function ActiveEnrollment(filtered: seq<Value>, selectedId: Value): (r: Option<Value>)
    ensures r.None? <==> filtered == []
    ensures r.Some? ==> r.value in filtered
    ensures r.Some? && (exists x :: x in filtered && Get(x, "id") == selectedId) ==> Get(r.value, "id") == selectedId
    ensures (forall x :: x in filtered ==> Get(x, "id") != selectedId) && filtered != [] ==> r == Some(filtered[0])
    ensures (exists x :: x in filtered && Get(x, "id") == selectedId) ==> r == FindById(filtered, selectedId)
  {
    if filtered == [] then None
    else
      match FindById(filtered, selectedId)
      case Some(x) => Some(x)
      case None => Some(filtered[0])
  }

  /**
   * The auto-select effect: once records are loaded and nothing is selected
   * (the selection is falsy), select the first record of the unfiltered list.
   */
  function AutoSelection(enrollments: seq<Value>, selectedId: Value): (r: Value)
    requires enrollments != [] ==> !IsNullish(enrollments[0])
    ensures Truthy(selectedId) || enrollments == [] ==> r == selectedId
    ensures !Truthy(selectedId) && enrollments != [] ==> r == Get(enrollments[0], "id")
  {
    if |enrollments| > 0 && !Truthy(selectedId) then Get(enrollments[0], "id") else selectedId
  }

  /** The effect reruns after it sets the selection; the second run changes nothing, so it settles. */
  lemma AutoSelectionSettles(enrollments: seq<Value>, selectedId: Value)
    requires enrollments != [] ==> !IsNullish(enrollments[0])
    ensures AutoSelection(enrollments, AutoSelection(enrollments, selectedId)) == AutoSelection(enrollments, selectedId)
  {
  }
}
