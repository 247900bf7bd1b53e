# Enrollment and course dashboard — a Dafny model

This project models the core of an admin dashboard for a children's course
provider. Parents submit enrollment applications. The application stores
them, and its courses, in a realtime database. Staff review the applications
on two pages:

- The **overview page** (`src/pages/Dashboard.jsx`) lists the enrollments.
  They can be narrowed by a search text, a course and a status. The page
  auto-selects a record for the detail pane and shows four status counts,
  each padded to at least two digits. It also exports the filtered list as comma-separated
  text.
- The **applications page** (`src/pages/ApplicationsPage.jsx`) uses the same
  filter and selection, with null-safe search fields. It adds the
  status-change handler and its `{ loading, error }` state.
- The **enrollment service** (`src/services/enrollmentService.js`) turns each
  database snapshot (`{ key: record, ... }`) into a list
  `[{ id: key, ...record }, ...]`. Falsy data gives `[]`, and so does a
  listener error.
- The **course service** (`src/services/courseService.js`) normalises course
  snapshots with safe defaults. It also performs the three writes on the
  keyed course store: update, create and delete.

The files are:

- `wrappers.dfy`: the `Option` type, and `WriteOutcome` (module `Writes`), the outcome of an awaited database write.
- `js_text.dfy`: string helpers as the pages use them. Covers `toLowerCase`,
  `includes`, `toString` of a count, `padStart` and `join`.
- `js_value.dfy`: loosely typed JavaScript values as the database delivers
  them. Covers truthiness, own-property reads and string conversion.
- `enrollment_service.dfy`: snapshot conversion.
- `enrollment_view.dfy`: the filter and selection logic that both pages
  share.
- `csv_text.dfy`: a reader for the exported text. It splits on a separator
  only outside double quotes and serves as the export's partner.
- `dashboard.dfy`: the overview page, as the class `DashboardPage`, plus
  counts, display values, the export and the memoisation finding.
- `applications_page.dfy`: the review page, as the class
  `ApplicationsPageState`.
- `course_service.dfy`: course normalisation, and the course store as the
  class `CourseStore`.

Page state that React keeps in `useState` becomes fields of a class, and each
setter becomes a method with a `modifies` clause. Memoised values are
functions that read the class.

## Model

| member | source | states |
|---|---|---|
| JsText.IncludesIffOccurs | src/pages/Dashboard.jsx:43-45 | `includes` holds exactly when the query occurs at some position of the text, in both directions |
| JsText.LowerIdempotent | src/pages/Dashboard.jsx:43-45 | lowering an already lowered string changes nothing, so a lowered query is its own lowered form |
| JsText.NatToStringRoundTrip | src/pages/Dashboard.jsx:74 | `toString` of a count gives a non-empty digit string with no leading zero, one digit exactly below 10, and parses back to the count |
| JsText.LeadingZerosIgnored | src/pages/Dashboard.jsx:74 | zeros prepended by `padStart` keep the text all digits and do not change the number it denotes |
| EnrollmentService.RecordFields | src/services/enrollmentService.js:24-27 | in `{ id: key, ...raw }`, `id` reads as the raw record's own `id` if it has one and as the key otherwise; every other field reads exactly as in the raw record |
| EnrollmentService.SnapshotToList | src/services/enrollmentService.js:16-27 | falsy data gives `[]`; otherwise there is one record per own key, in key order, and record i is built from key i and its value |
| EnrollmentService.SnapshotRecord | src/services/enrollmentService.js:24-27 | record i of a snapshot is an object; its `id` is the key of entry i unless the raw record carries its own; all other fields of the raw record pass through unchanged, with no defaults added |
| EnrollmentService.Deliver | src/services/enrollmentService.js:13-33 | a listener error delivers `[]`; a snapshot delivers its converted list, so `[]` for falsy data, and every delivered record is an object |
| EnrollmentView.MergeFilter | src/pages/Dashboard.jsx:188-212 | `{ ...prev, ...next }` sets the changed filter field and leaves the other three as they were |
| EnrollmentView.Filter | src/pages/Dashboard.jsx:40-55 | the result is no longer than the list; a record is in the result exactly when it is in the list and matches search, course and status |
| EnrollmentView.FilterConcat | src/pages/Dashboard.jsx:41-54 | filtering distributes over concatenation, so the kept records stay in list order |
| EnrollmentView.DefaultFiltersKeepAll | src/pages/Dashboard.jsx:9-14 | with the default filters, under any time range, every record with a string search field is kept and the list is unchanged |
| EnrollmentView.TimeRangeIgnored | src/pages/Dashboard.jsx:188-205 | changing the time-range chip never changes the filtered list |
| EnrollmentView.SearchIgnoresQueryCase | src/pages/Dashboard.jsx:42-45 | a record matches a query exactly when it matches the lowered query |
| EnrollmentView.SearchByOccurrence | src/pages/Dashboard.jsx:42-45 | the search clause holds exactly when the lowered query occurs in the lowered child name, parent name or id (each only when a string); the empty query matches exactly the records with a string search field |
| EnrollmentView.FindById | src/pages/Dashboard.jsx:62 | `find` gives nothing exactly when no record has the id; what it gives is a record of the list with that id |
| EnrollmentView.FindByIdFirst | src/pages/Dashboard.jsx:62 | `find` gives the first record with the id |
| EnrollmentView.ActiveEnrollment | src/pages/Dashboard.jsx:57-63 | nothing exactly for an empty filtered list; otherwise a filtered record: what `find` gives (the first carrying the selected id) when one carries it, else the first |
| EnrollmentView.AutoSelection | src/pages/Dashboard.jsx:33-38 | a truthy selection, or an empty list, is kept; otherwise the first record's id is selected |
| EnrollmentView.AutoSelectionSettles | src/pages/Dashboard.jsx:33-38 | running the effect a second time selects nothing new |
| CsvText.SplitJoin | src/pages/Dashboard.jsx:134 | cells joined with a separator split back, outside quotes, into the same cells when each of them has its double quotes balanced and no separator outside quotes |
| CsvText.LinesReadBack | src/pages/Dashboard.jsx:139 | lines joined by newlines split back into the same lines when each line has its double quotes balanced and no newline outside quotes |
| Dashboard.DashboardPage.constructor | src/pages/Dashboard.jsx:17-19 | the page starts with the default filters (version 0), no enrollments and a `null` selection |
| Dashboard.DashboardPage.ReceiveEnrollments | src/pages/Dashboard.jsx:22-31 | each delivery replaces the whole list; a listener error leaves `[]` |
| Dashboard.DashboardPage.AutoSelect | src/pages/Dashboard.jsx:34-38 | the selection becomes the auto-selection of the current list and old selection |
| Dashboard.DashboardPage.ChangeFilter | src/pages/Dashboard.jsx:188-212 | the filters become the merge of the old ones with the changed field, the other fields keep their values, and the filters object is a new one (its version goes up by one) |
| Dashboard.DashboardPage.Select | src/pages/Dashboard.jsx:218 | the selection becomes the clicked id |
| Dashboard.DashboardPage.Filtered | src/pages/Dashboard.jsx:40-55 | the shown list is the order-preserving filter of the loaded list: every shown record is loaded and matches, every matching loaded record is shown; with search, course and status at their defaults, the whole list is shown. The class recomputes the filter on every read, which is the corrected dependency; the as-written caching is `RenderFiltersOnly` |
| Dashboard.DashboardPage.Active | src/pages/Dashboard.jsx:57-63 | nothing exactly when the filtered list is empty; otherwise a filtered record: the one carrying the selected id when one does, else the first filtered record |
| Dashboard.CountStatus | src/pages/Dashboard.jsx:67-69 | a status count never exceeds the length of the filtered list |
| Dashboard.StatusCountsCover | src/pages/Dashboard.jsx:65-69 | the three status counts add up to at most the total, and to exactly the total when every record has a known status |
| Dashboard.StatValue | src/pages/Dashboard.jsx:74 | the displayed value has at least two digits and parses back to the count; a count of 10 or more is shown as is, a smaller one with a single leading zero |
| Dashboard.OverviewStats | src/pages/Dashboard.jsx:65-97 | there are four cards with their captions; each value is digits only, at least two of them, and denotes the total, pending, approved or waitlisted count of the same filtered list |
| Dashboard.HeaderReadsBack | src/pages/Dashboard.jsx:101-118 | the header line splits back into the 12 column captions |
| Dashboard.RowReadsBack | src/pages/Dashboard.jsx:119-134 | for an export-safe record (no `"` in any cell, no comma or newline in a bare cell), its line splits back into 12 cells; the child, parent, course, time, interests and notes cells are quoted and the rest bare; the line has no newline outside quotes |
| Dashboard.ExportCsv | src/pages/Dashboard.jsx:99-139 | the export fails exactly when some filtered record has no array `interests` (its `join` throws); otherwise it produces the header and row text |
| Dashboard.ExportReadsBack | src/pages/Dashboard.jsx:117-139 | when the export succeeds and every record is export-safe, its text splits back into the header line and one line per filtered record |
| Dashboard.QuoteInCellBreaksReadBack | src/pages/Dashboard.jsx:122-139 | without that condition read-back fails: a cell holding a lone `"` swallows the following line break, so two lines read back as one |
| Dashboard.CsvReadsBack | src/pages/Dashboard.jsx:117-139 | when every filtered record is export-safe, the exported text splits back by newline into the header line followed by one line per filtered record, in order |
| Dashboard.RenderFiltersOnly | src/pages/Dashboard.jsx:40-55 | the memo keyed on the identity of the filters object (its version) returns its cached list until the next filter event, whatever the enrollments are, and recomputes the filter of the current list after one |
| Dashboard.FilterEventRefreshes | src/pages/Dashboard.jsx:194-199 | clicking the chip that is already active leaves the filter values equal but makes the memo show the filter of the current list |
| Dashboard.FiltersOnlyMemoGoesStale | src/pages/Dashboard.jsx:40-55 | after the first snapshot arrives before any filter event, the memo still holds `[]` although the record it brought matches |
| Dashboard.Render | src/pages/ApplicationsPage.jsx:49-64 | the memo keyed on both enrollments and filters always holds the filter of the current inputs |
| ApplicationsPage.SettledState | src/pages/ApplicationsPage.jsx:79-91 | a settled update is never loading; it has an error exactly when the write failed, and the error is the fixed non-empty message |
| ApplicationsPage.ApplicationsPageState.constructor | src/pages/ApplicationsPage.jsx:18-24 | default filters, no enrollments, a `null` selection, not loading and no error |
| ApplicationsPage.ApplicationsPageState.ReceiveEnrollments | src/pages/ApplicationsPage.jsx:27-40 | each delivery replaces the whole list |
| ApplicationsPage.ApplicationsPageState.AutoSelect | src/pages/ApplicationsPage.jsx:43-47 | an empty list or a truthy selection keeps the selection; otherwise the first record's id is selected |
| ApplicationsPage.ApplicationsPageState.ChangeFilter | src/pages/ApplicationsPage.jsx:99-123 | the filters become the merge of the old ones with the changed field |
| ApplicationsPage.ApplicationsPageState.Select | src/pages/ApplicationsPage.jsx:131 | the selection becomes the clicked id |
| ApplicationsPage.ApplicationsPageState.Filtered | src/pages/ApplicationsPage.jsx:49-64 | the shown list is the order-preserving filter of the loaded list: a loaded record is shown exactly when it matches, and every shown record has a string search field; with defaults, every record with a string search field is shown, never throwing |
| ApplicationsPage.ApplicationsPageState.Active | src/pages/ApplicationsPage.jsx:66-72 | nothing exactly when the filtered list is empty; otherwise a filtered record: the one carrying the selected id when one does, else the first filtered record |
| ApplicationsPage.ApplicationsPageState.BeginStatusChange | src/pages/ApplicationsPage.jsx:74-81 | a write is issued exactly when both the id and the status are truthy; it is then loading with no error, and otherwise the state is untouched |
| ApplicationsPage.ApplicationsPageState.FinishStatusChange | src/pages/ApplicationsPage.jsx:80-91 | the update state becomes the settled state of the write's outcome |
| ApplicationsPage.ApplicationsPageState.HandleStatusChange | src/pages/ApplicationsPage.jsx:74-92 | a write happens exactly for a truthy id and status, and the handler ends settled; the list, the selection and the filters never change |
| CourseService.LearningPoints | src/services/courseService.js:20-24 | an array is kept as it is; another truthy value becomes its own property values in key order; a falsy value becomes `[]` |
| CourseService.NormaliseCourse | src/services/courseService.js:12-32 | the id is the key; each text field is the raw value when truthy and exactly `''` otherwise; `whatYouWillLearn` is the learning points of the raw field; each timestamp is the raw value when truthy and `null` otherwise; a falsy entry gives the all-defaults course |
| CourseService.ProcessCourseData | src/services/courseService.js:6-34 | falsy data gives `[]`; otherwise there is one course per key, in key order, with id = key, each the normalisation of its own entry; a falsy entry becomes the all-defaults course |
| CourseService.NormaliseIdempotent | src/services/courseService.js:11-33 | normalising an already normalised course, read back under its key, changes nothing |
| CourseService.Updated | src/services/courseService.js:71-74 | the update's fields are the stored ones overlaid by the new data, with `updatedAt` set to now |
| CourseService.Created | src/services/courseService.js:80-84 | the new record holds the data with `createdAt` and `updatedAt` both set to now |
| CourseService.CourseStore.SaveCourse | src/services/courseService.js:66-86 | with an id, only that key changes and the result is the id; without one, the data goes under the fresh push key and the result is that key; a rejected write changes nothing; every other course is untouched |
| CourseService.CourseStore.DeleteCourse | src/services/courseService.js:88-92 | a falsy id does nothing; otherwise exactly that key is removed, unless the write is rejected |

## Left out

- Database I/O: subscriptions, `get`, `push`, `set`, `update`, `remove` and unsubscribing are not modelled. A snapshot arrives as a `ListenerEvent` value. A write's outcome is a parameter. `push`'s new key is a parameter that is required to be fresh.
- `fetchCourses` (src/services/courseService.js:36-64) is not modelled. It is a one-time read plus a listener, both feeding `processCourseData`, which is modelled; its errors are only logged.
- `updateEnrollmentStatus` is imported by the applications page but is not part of this model; src/services/enrollmentService.js does not export it. `HandleStatusChange` returns the write it would issue, and the write's outcome is supplied.
- React scheduling: when effects run, batching of state updates, and the async gap between the two halves of the status handler are not modelled. The handler is the sequence `BeginStatusChange` then `FinishStatusChange`.
- JSX rendering, the components and `navigate` are not modelled. The CSV download plumbing (Blob, link, file name from today's date) and console logging are also left out.
- `Date.now()` is a parameter `now`. `new Date(x).toLocaleDateString()` is a function parameter `formatDate`, because locale formatting is outside the model.
- `toLowerCase` lowers ASCII letters only; Unicode case mapping is not modelled.
- Numbers are integers. Floating point and `NaN` are not modelled.
- Object keys keep their insertion order. JavaScript's rule that integer-like keys enumerate first is not modelled.
- Prototype properties (such as `length`) are not readable through `Get`.
- Sparse arrays, and database keys containing `/`, are not modelled.
- Object identity is modelled only for the filters object, by its version count `filtersVersion`. Elsewhere `record.id === selectedId` compares values, which differs from JavaScript only for object-valued ids.
- Dashboard.Searchable: it requires all three search fields to be strings. The source needs only the fields that `||` actually reaches, so records whose first field matches are admitted there with a non-string later field. The same holds for ApplicationsPage.Searchable with its string-or-nullish requirement.
- Dashboard.RowReadsBack, Dashboard.CsvReadsBack and Dashboard.ExportReadsBack hold only for export-safe records: the export escapes no double quote, comma or newline, so other records do not read back (`QuoteInCellBreaksReadBack`).
- The trend and helper strings on the stat cards are constants and are not modelled.
- The model follows the code in these points:
  - a listener error delivers `[]` and does not keep the last list;
  - no `status` default is applied to enrollments;
  - there are no field aliases;
  - there is no four-course cap on creation.

## Findings

| source | as written | input that shows it | evidently intended | confidence | as-written member | corrected member |
|---|---|---|---|---|---|---|
| src/pages/Dashboard.jsx:55 | `useMemo(..., [filters])` recomputes the filtered list only after a filter event (a new filters object), though it is derived from `enrollments` too | the first render caches `[]`; the first snapshot delivers `{ id: "k1", childName: "Ada", parentName: "Lin" }` while the filters stay at their defaults; the memo still returns `[]`, so the table, the counts and the export stay empty | depend on `[enrollments, filters]`, as the applications page does, so the list is always the filter of the current enrollments | high, not executed | Dashboard.FiltersOnlyMemoGoesStale | Dashboard.Render |
