/**
 * The review page (src/pages/ApplicationsPage.jsx): the same filter and
 * selection as the overview page, but null-safe on the search fields, plus
 * the status-change handler and its `{ loading, error }` state.
 *
 * The write itself (`updateEnrollmentStatus`) is outside the model: the
 * handler returns the write it issues, and the caller supplies its outcome.
 */
module ApplicationsPage {
  import opened Wrappers
  import opened Writes
  import opened JsValue
  import opened EnrollmentView
  import EnrollmentService

  /**
   * What `enrollment.childName?.toLowerCase()` and its two siblings need:
   * a record (reading a field of `null` throws) whose search fields are
   * strings or missing (optional chaining skips `null` and `undefined`).
   */
  predicate Searchable(e: Value) {
    && !IsNullish(e)
    && (Get(e, "childName").Str? || IsNullish(Get(e, "childName")))
    && (Get(e, "parentName").Str? || IsNullish(Get(e, "parentName")))
    && (Get(e, "id").Str? || IsNullish(Get(e, "id")))
  }

  datatype StatusUpdateState = StatusUpdateState(loading: bool, error: Option<string>)

  const StatusErrorMessage := "Something went wrong while updating status."

  /** The write the handler issues: `updateEnrollmentStatus(enrollmentId, nextStatus)`. */
  datatype StatusWrite = StatusWrite(enrollmentId: Value, nextStatus: Value)

  /** The state the handler ends in once the write settles: never loading, an error exactly on failure. */
  function SettledState(outcome: WriteOutcome): (s: StatusUpdateState)
    ensures !s.loading
    ensures s.error.Some? <==> outcome == WriteFailed
    ensures s.error.Some? ==> s.error.value == StatusErrorMessage && |s.error.value| > 0
  {
    match outcome
    case WriteSucceeded => StatusUpdateState(false, None)
    case WriteFailed => StatusUpdateState(false, Some(StatusErrorMessage))
  }

  class ApplicationsPageState {
    var filters: Filters
    var enrollments: seq<Value>
    var selectedId: Value
    var statusUpdate: StatusUpdateState

    constructor()
      ensures filters == DefaultFilters && enrollments == [] && selectedId == Null
      ensures statusUpdate == StatusUpdateState(false, None)
    {
      filters := DefaultFilters;
      enrollments := [];
      selectedId := Null;
      statusUpdate := StatusUpdateState(false, None);
    }

    /** The listener callback `setEnrollments(data)`. */
    method ReceiveEnrollments(ev: EnrollmentService.ListenerEvent)
      modifies this`enrollments
      ensures enrollments == EnrollmentService.Deliver(ev)
    {
      enrollments := EnrollmentService.Deliver(ev);
    }

    /** The auto-select effect: picks the first record of the UNFILTERED list. */
    method AutoSelect()
      requires enrollments != [] ==> !IsNullish(enrollments[0])
      modifies this`selectedId
      ensures selectedId == AutoSelection(enrollments, old(selectedId))
      ensures enrollments != [] && !Truthy(old(selectedId)) ==> selectedId == Get(enrollments[0], "id")
      ensures enrollments == [] || Truthy(old(selectedId)) ==> selectedId == old(selectedId)
    {
      if |enrollments| > 0 && !Truthy(selectedId) {
        selectedId := Get(enrollments[0], "id");
      }
    }

    method ChangeFilter(field: FilterField, value: string)
      modifies this`filters
      ensures filters == MergeFilter(old(filters), field, value)
    {
      filters := MergeFilter(filters, field, value);
    }

    method Select(id: Value)
      modifies this`selectedId
      ensures selectedId == id
    {
      selectedId := id;
    }

    /**
     * The filtered list. A missing search field never throws here; it only
     * fails to match, so with the default filters a record is kept exactly
     * when one of its search fields is a string.
     */
    function Filtered(): (r: seq<Value>)
      reads this
      requires forall e :: e in enrollments ==> Searchable(e)
      ensures r == Filter(enrollments, filters)
      ensures forall e :: e in r ==> e in enrollments && Matches(e, filters) && HasSearchText(e)
      ensures forall e :: e in enrollments && Matches(e, filters) ==> e in r
      ensures filters.search == "" && filters.course == "all" && filters.status == "all" ==>
        forall e :: e in enrollments && HasSearchText(e) ==> e in r
    {
      var r := Filter(enrollments, filters);
      assert forall e :: e in r ==> HasSearchText(e) by {
        forall e | e in r ensures HasSearchText(e) {
          assert Matches(e, filters);
        }
      }
      if filters.search == "" && filters.course == "all" && filters.status == "all" then
        assert forall e :: e in enrollments && HasSearchText(e) ==> e in r by {
          forall e | e in enrollments && HasSearchText(e) ensures e in r {
            SearchByOccurrence(e, "");
          }
        }
        r
      else
        r
    }

    /** The record the detail pane shows: the selected one if it survived the filter, else the first; none for an empty list. */
    function Active(): (r: Option<Value>)
      reads this
      requires forall e :: e in enrollments ==> Searchable(e)
      ensures r.None? <==> Filtered() == []
      ensures r == ActiveEnrollment(Filtered(), selectedId)
      ensures r.Some? ==> r.value in Filtered() && r.value in enrollments
      ensures r.Some? && (exists x :: x in Filtered() && Get(x, "id") == selectedId) ==> Get(r.value, "id") == selectedId
      ensures r.Some? && Get(r.value, "id") != selectedId ==> r.value == Filtered()[0]
    {
      ActiveEnrollment(Filtered(), selectedId)
    }

    /**
     * The first half of `handleStatusChange`: with a falsy id or status it
     * returns at once; otherwise it marks the update as loading, clears the
     * error, and issues the write.
     */
    method BeginStatusChange(enrollmentId: Value, nextStatus: Value) returns (write: Option<StatusWrite>)
      modifies this`statusUpdate
      ensures write.Some? <==> Truthy(enrollmentId) && Truthy(nextStatus)
      ensures write.Some? ==> write.value == StatusWrite(enrollmentId, nextStatus)
      ensures write.Some? ==> statusUpdate == StatusUpdateState(true, None)
      ensures write.None? ==> statusUpdate == old(statusUpdate)
    {
      if !Truthy(enrollmentId) || !Truthy(nextStatus) {
        return None;
      }
      statusUpdate := StatusUpdateState(true, None);
      write := Some(StatusWrite(enrollmentId, nextStatus));
    }

    /** The second half: the awaited write settles, in success or in the fixed failure message. */
    method FinishStatusChange(outcome: WriteOutcome)
      modifies this`statusUpdate
      ensures statusUpdate == SettledState(outcome)
    {
      match outcome {
        case WriteFailed =>
          statusUpdate := StatusUpdateState(false, Some(StatusErrorMessage));
        case WriteSucceeded =>
          statusUpdate := StatusUpdateState(false, None);
      }
    }

    /**
     * The whole handler. Only the update state changes: the list, the
     * selection and the filters are untouched, whatever the write's outcome;
     * a new status is seen only when the store pushes the next snapshot.
     */
    method HandleStatusChange(enrollmentId: Value, nextStatus: Value, outcome: WriteOutcome)
      returns (write: Option<StatusWrite>)
      modifies this`statusUpdate
      ensures write.Some? <==> Truthy(enrollmentId) && Truthy(nextStatus)
      ensures write.None? ==> statusUpdate == old(statusUpdate)
      ensures write.Some? ==> write.value == StatusWrite(enrollmentId, nextStatus) && statusUpdate == SettledState(outcome)
      ensures enrollments == old(enrollments) && selectedId == old(selectedId) && filters == old(filters)
    {
      write := BeginStatusChange(enrollmentId, nextStatus);
      if write.Some? {
        FinishStatusChange(outcome);
      }
    }
  }
}
