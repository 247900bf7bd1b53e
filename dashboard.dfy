/**
 * The overview page (src/pages/Dashboard.jsx): its state (filters, the
 * loaded enrollment list, the selected id), the four status counts and their
 * display padded to at least two digits, and the CSV export of the filtered list.
 *
 * Unlike the applications page, this page lowers the three search fields
 * without a null check, so a record missing one of them would throw: the
 * derivations here require them to be strings.
 */
module Dashboard {
  import opened Wrappers
  import opened JsText
  import opened JsValue
  import opened CsvText
  import opened EnrollmentView
  import EnrollmentService

  /** The three search fields are strings, as `enrollment.childName.toLowerCase()` needs. */
  predicate Searchable(e: Value) {
    Get(e, "childName").Str? && Get(e, "parentName").Str? && Get(e, "id").Str?
  }

  lemma SearchableHasText(list: seq<Value>)
    requires forall e :: e in list ==> Searchable(e)
    ensures forall e :: e in list ==> HasSearchText(e)
  {
  }

  // ------------------------------------------------------------ page state

  class DashboardPage {
    var filters: Filters
    /** How many times `setFilters` has replaced the filters object. */
    var filtersVersion: nat
    var enrollments: seq<Value>
    var selectedId: Value

    constructor()
      ensures filters == DefaultFilters && enrollments == [] && selectedId == Null
      ensures filtersVersion == 0
    {
      filters := DefaultFilters;
      filtersVersion := 0;
      enrollments := [];
      selectedId := Null;
    }

    /** The listener callback `setEnrollments(data)`: each delivery replaces the whole list, an error with `[]`. */
    method ReceiveEnrollments(ev: EnrollmentService.ListenerEvent)
      modifies this`enrollments
      ensures enrollments == EnrollmentService.Deliver(ev)
      ensures ev.ListenerError? ==> enrollments == []
    {
      enrollments := EnrollmentService.Deliver(ev);
    }

    /** The auto-select effect. */
    method AutoSelect()
      requires enrollments != [] ==> !IsNullish(enrollments[0])
      modifies this`selectedId
      ensures selectedId == AutoSelection(enrollments, old(selectedId))
    {
      if |enrollments| > 0 && !Truthy(selectedId) {
        selectedId := Get(enrollments[0], "id");
      }
    }

    /** A filter control or a time-range chip: merge the one changed field into the filters. */
    method ChangeFilter(field: FilterField, value: string)
      modifies this`filters, this`filtersVersion
      ensures filters == MergeFilter(old(filters), field, value)
      ensures filtersVersion == old(filtersVersion) + 1
      ensures forall other :: other != field ==> FieldOf(filters, other) == FieldOf(old(filters), other)
    {
      filters := MergeFilter(filters, field, value);
      filtersVersion := filtersVersion + 1;
    }

    /** `onSelect={setSelectedId}` from the table. */
    method Select(id: Value)
      modifies this`selectedId
      ensures selectedId == id
    {
      selectedId := id;
    }

    /** The filtered list; with the three clauses at their defaults it is the whole list. */
    function Filtered(): (r: seq<Value>)
      reads this
      requires forall e :: e in enrollments ==> Searchable(e)
      ensures r == Filter(enrollments, filters)
      ensures forall e :: e in r ==> e in enrollments && Matches(e, filters)
      ensures filters.search == "" && filters.course == "all" && filters.status == "all" ==> r == enrollments
    {
      if filters.search == "" && filters.course == "all" && filters.status == "all" then
        assert filters == DefaultFilters.(timeRange := filters.timeRange);
        SearchableHasText(enrollments);
        DefaultFiltersKeepAll(enrollments, filters.timeRange);
        Filter(enrollments, filters)
      else
        Filter(enrollments, filters)
    }

    /** The record the detail pane shows: the selected one if it survived the filter, else the first; none for an empty list. */
    function Active(): (r: Option<Value>)
      reads this
      requires forall e :: e in enrollments ==> Searchable(e)
      ensures r.None? <==> Filtered() == []
      ensures r == ActiveEnrollment(Filtered(), selectedId)
      ensures r.Some? ==> r.value in Filtered() && r.value in enrollments
      ensures r.Some? && (exists x :: x in Filtered() && Get(x, "id") == selectedId) ==> Get(r.value, "id") == selectedId
      ensures r.Some? && Get(r.value, "id") != selectedId ==> r.value == Filtered()[0]
    {
      ActiveEnrollment(Filtered(), selectedId)
    }
  }

  // -------------------------------------------------------------- counts

  /** `filtered.filter((item) => item.status === status).length` */
  function CountStatus(list: seq<Value>, status: string): (n: nat)
    ensures n <= |list|
  {
    if list == [] then 0
    else (if Get(list[0], "status") == Str(status) then 1 else 0) + CountStatus(list[1..], status)
  }

  predicate KnownStatus(e: Value) {
    Get(e, "status") == Str("pending") || Get(e, "status") == Str("approved") || Get(e, "status") == Str("waitlisted")
  }

  /** The three status counts never exceed the total, and add up to it when every status is a known one. */
  lemma {:induction false} StatusCountsCover(list: seq<Value>)
    ensures CountStatus(list, "pending") + CountStatus(list, "approved") + CountStatus(list, "waitlisted") <= |list|
    ensures (forall x :: x in list ==> KnownStatus(x)) ==>
      CountStatus(list, "pending") + CountStatus(list, "approved") + CountStatus(list, "waitlisted") == |list|
  {
    if list != [] {
      var tail := list[1..];
      StatusCountsCover(tail);
      var st := Get(list[0], "status");
      assert "pending" != "approved" && "pending" != "waitlisted" && "approved" != "waitlisted" by {
        assert "pending"[0] != "approved"[0] && "pending"[0] != "waitlisted"[0] && "approved"[0] != "waitlisted"[0];
      }
      assert (if st == Str("pending") then 1 else 0) + (if st == Str("approved") then 1 else 0)
        + (if st == Str("waitlisted") then 1 else 0) == (if KnownStatus(list[0]) then 1 else 0);
      if forall x :: x in list ==> KnownStatus(x) {
        assert KnownStatus(list[0]);
        assert forall x :: x in tail ==> x in list;
      }
    }
  }

  /** `n.toString().padStart(2, '0')`: at least two digits, reads back as `n`, unchanged from ten on. */
  function StatValue(n: nat): (r: string)
    ensures |r| >= 2 && AllDigits(r) && ParseDecimal(r) == n
    ensures n >= 10 ==> r == NatToString(n)
    ensures n < 10 ==> r == ['0'] + NatToString(n)
  {
    NatToStringRoundTrip(n);
    if n < 10 then
      LeadingZerosIgnored(1, NatToString(n));
      assert Repeat('0', 1) == ['0'];
      PadStart(NatToString(n), 2, '0')
    else
      assert NatToString(n) == NatToString(n / 10) + [DigitChar(n % 10)];
      NatToStringRoundTrip(n / 10);
      PadStart(NatToString(n), 2, '0')
  }

  datatype StatCard = StatCard(caption: string, value: string)

  /** The four overview cards, each counted over the same filtered list. */
  function OverviewStats(filtered: seq<Value>): (cards: seq<StatCard>)
    ensures |cards| == 4
    ensures cards[0].caption == "Total Applications" && cards[1].caption == "Pending Reviews"
    ensures cards[2].caption == "Approved Students" && cards[3].caption == "Waitlist"
    ensures forall card :: card in cards ==> |card.value| >= 2 && AllDigits(card.value)
    ensures ParseDecimal(cards[0].value) == |filtered|
    ensures ParseDecimal(cards[1].value) == CountStatus(filtered, "pending")
    ensures ParseDecimal(cards[2].value) == CountStatus(filtered, "approved")
    ensures ParseDecimal(cards[3].value) == CountStatus(filtered, "waitlisted")
  {
    var total := StatValue(|filtered|);
    var pending := StatValue(CountStatus(filtered, "pending"));
    var approved := StatValue(CountStatus(filtered, "approved"));
    var waitlisted := StatValue(CountStatus(filtered, "waitlisted"));
    [ StatCard("Total Applications", total),
      StatCard("Pending Reviews", pending),
      StatCard("Approved Students", approved),
      StatCard("Waitlist", waitlisted) ]
  }

  // ----------------------------------------------------------------- CSV

  const CsvHeaders: seq<string> := [
    "ID", "Child Name", "Parent Name", "Parent Email", "Course", "Status",
    "Submitted At", "Preferred Time", "Start Date", "Child Age", "Interests", "Notes"
  ]

  /** The columns written inside double quotes: child, parent, course, preferred time, interests, notes. */
  predicate IsQuotedColumn(i: int) {
    i == 1 || i == 2 || i == 4 || i == 7 || i == 10 || i == 11
  }

  /** A record the export can render: `interests.join` needs an array. */
  predicate Exportable(e: Value) {
    Get(e, "interests").Arr?
  }

  /**
   * The text of each cell before quoting. Bare cells are rendered by
   * `row.join(',')` (so `null`/`undefined` become `''`); quoted cells by a
   * template literal (so they become `"undefined"`); `formatDate` stands for
   * `new Date(submittedAt).toLocaleDateString()`.
   */
  function CellTexts(e: Value, formatDate: Value -> string): seq<string>
    requires Exportable(e)
  {
    [ ElementText(Get(e, "id")),
      ToText(Get(e, "childName")),
      ToText(Get(e, "parentName")),
      ElementText(Get(e, "parentEmail")),
      ToText(Get(e, "course")),
      ElementText(Get(e, "status")),
      formatDate(Get(e, "submittedAt")),
      ToText(Get(e, "preferredTime")),
      ElementText(Get(e, "startDate")),
      ElementText(Get(e, "childAge")),
      JoinElements(Get(e, "interests").items, ", "),
      if Truthy(Get(e, "notes")) then ToText(Get(e, "notes")) else "" ]
  }

  function RowCells(e: Value, formatDate: Value -> string): seq<string>
    requires Exportable(e)
  {
    var t := CellTexts(e, formatDate);
    seq(|t|, i requires 0 <= i < |t| => if IsQuotedColumn(i) then Quote(t[i]) else t[i])
  }

  function Rows(filtered: seq<Value>, formatDate: Value -> string): (rows: seq<string>)
    requires forall e :: e in filtered ==> Exportable(e)
    ensures |rows| == |filtered|
    ensures forall i :: 0 <= i < |filtered| ==> rows[i] == Join(RowCells(filtered[i], formatDate), ",")
  {
    seq(|filtered|, i requires 0 <= i < |filtered| => Join(RowCells(filtered[i], formatDate), ","))
  }

  /** The exported text: the header line, then one line per filtered record, joined by newlines. */
  function CsvContent(filtered: seq<Value>, formatDate: Value -> string): string
    requires forall e :: e in filtered ==> Exportable(e)
  {
    Join([Join(CsvHeaders, ",")] + Rows(filtered, formatDate), "\n")
  }

  /**
   * `handleDownloadCSV` as a whole: `enrollment.interests.join(', ')` throws
   * when a filtered record's `interests` is missing or not an array, and
   * then nothing is exported; otherwise the text above is exported.
   */
  function ExportCsv(filtered: seq<Value>, formatDate: Value -> string): (r: Option<string>)
    ensures r.None? <==> exists e :: e in filtered && !Exportable(e)
    ensures r.Some? ==> r.value == CsvContent(filtered, formatDate)
  {
    if forall e :: e in filtered ==> Exportable(e) then Some(CsvContent(filtered, formatDate)) else None
  }

  /**
   * A successful export of records whose cells are export-safe splits back
   * into the header line and one line per filtered record. The condition is
   * needed: the export escapes nothing (see `QuoteInCellBreaksReadBack`).
   */
  lemma ExportReadsBack(filtered: seq<Value>, formatDate: Value -> string)
    requires forall e :: e in filtered && Exportable(e) ==> ExportSafe(e, formatDate)
    ensures ExportCsv(filtered, formatDate).Some? ==>
      SplitOutsideQuotes(ExportCsv(filtered, formatDate).value, '\n')
        == [Join(CsvHeaders, ",")] + Rows(filtered, formatDate)
  {
    if ExportCsv(filtered, formatDate).Some? {
      CsvReadsBack(filtered, formatDate);
    }
  }

  /**
   * Why read-back needs export-safe cells: a lone double quote in a cell
   * opens a quoted run that swallows the next line break, so two exported
   * lines read back as one.
   */
  lemma QuoteInCellBreaksReadBack()
    ensures SplitOutsideQuotes(Join(["\"", "b"], "\n"), '\n') == ["\"\nb"]
  {
    var text := "\"\nb";
    assert Join(["\"", "b"], "\n") == text;
    assert text[0] == '"' && text[1..] == "\nb";
    assert "\nb"[0] == '\n' && "\nb"[1..] == "b";
    assert "b"[0] == 'b' && "b"[1..] == [];
    assert [] + ['"'] == "\"" && "\"" + ['\n'] == "\"\n" && "\"\n" + ['b'] == text;
    assert SplitFrom("b", '\n', true, "\"\n") == SplitFrom([], '\n', true, text);
    assert SplitFrom("\nb", '\n', true, "\"") == SplitFrom("b", '\n', true, "\"\n");
    assert SplitFrom(text, '\n', false, []) == SplitFrom("\nb", '\n', true, "\"");
  }

  /**
   * The cells carry no double quote, and bare cells no comma or newline: the
   * condition under which the unescaped export can be read back.
   */
  predicate ExportSafe(e: Value, formatDate: Value -> string)
    requires Exportable(e)
  {
    var t := CellTexts(e, formatDate);
    forall i :: 0 <= i < |t| ==> '"' !in t[i] && (!IsQuotedColumn(i) ==> ',' !in t[i] && '\n' !in t[i])
  }

  lemma CellsClean(e: Value, formatDate: Value -> string, sep: char)
    requires Exportable(e) && ExportSafe(e, formatDate) && (sep == ',' || sep == '\n')
    ensures forall i :: 0 <= i < |RowCells(e, formatDate)| ==> Clean(RowCells(e, formatDate)[i], sep, false)
  {
    var t := CellTexts(e, formatDate);
    var cells := RowCells(e, formatDate);
    forall i | 0 <= i < |cells| ensures Clean(cells[i], sep, false) {
      if IsQuotedColumn(i) {
        QuotedClean(t[i], sep);
      } else {
        PlainClean(t[i], sep);
      }
    }
  }

  /** The header captions are plain words: no quote, comma or newline. */
  lemma HeaderPlain(k: nat)
    requires k < |CsvHeaders|
    ensures '"' !in CsvHeaders[k] && ',' !in CsvHeaders[k] && '\n' !in CsvHeaders[k]
  {
    var h := CsvHeaders[k];
    assert forall c :: c in h ==> c == ' ' || 'A' <= c <= 'Z' || 'a' <= c <= 'z';
  }

  lemma HeaderClean(sep: char)
    requires sep == ',' || sep == '\n'
    ensures forall i :: 0 <= i < |CsvHeaders| ==> Clean(CsvHeaders[i], sep, false)
  {
    forall i | 0 <= i < |CsvHeaders| ensures Clean(CsvHeaders[i], sep, false) {
      HeaderPlain(i);
      PlainClean(CsvHeaders[i], sep);
    }
  }

  /**
   * One record's line splits back, outside quotes, into its 12 cells, the
   * quoted columns wrapped in double quotes and the others bare; and the line
   * holds no newline outside quotes.
   */
  lemma RowReadsBack(e: Value, formatDate: Value -> string)
    requires Exportable(e) && ExportSafe(e, formatDate)
    ensures var cells := SplitOutsideQuotes(Join(RowCells(e, formatDate), ","), ',');
      && |cells| == |CsvHeaders|
      && cells == RowCells(e, formatDate)
      && forall c :: 0 <= c < |cells| ==>
           cells[c] == if IsQuotedColumn(c) then Quote(CellTexts(e, formatDate)[c]) else CellTexts(e, formatDate)[c]
    ensures Clean(Join(RowCells(e, formatDate), ","), '\n', false)
  {
    var cells := RowCells(e, formatDate);
    CellsClean(e, formatDate, ',');
    CellsClean(e, formatDate, '\n');
    SplitJoin(cells, ',');
    JoinClean(cells, ',', '\n');
  }

  /** Every line of the export holds no newline outside quotes. */
  lemma LinesClean(filtered: seq<Value>, formatDate: Value -> string)
    requires forall e :: e in filtered ==> Exportable(e) && ExportSafe(e, formatDate)
    ensures forall i :: 0 <= i < |filtered| ==> Clean(Rows(filtered, formatDate)[i], '\n', false)
    ensures Clean(Join(CsvHeaders, ","), '\n', false)
  {
    HeaderClean('\n');
    JoinClean(CsvHeaders, ',', '\n');
    forall i | 0 <= i < |filtered| ensures Clean(Rows(filtered, formatDate)[i], '\n', false) {
      RowReadsBack(filtered[i], formatDate);
    }
  }

  /** The header line splits back into the 12 column captions. */
  lemma HeaderReadsBack()
    ensures SplitOutsideQuotes(Join(CsvHeaders, ","), ',') == CsvHeaders
  {
    HeaderClean(',');
    SplitJoin(CsvHeaders, ',');
  }

  /**
   * Reading the export back, splitting outside quotes: the lines are the
   * 12-column header and then one line per filtered record, in order.
   */
  lemma CsvReadsBack(filtered: seq<Value>, formatDate: Value -> string)
    requires forall e :: e in filtered ==> Exportable(e) && ExportSafe(e, formatDate)
    ensures SplitOutsideQuotes(CsvContent(filtered, formatDate), '\n')
      == [Join(CsvHeaders, ",")] + Rows(filtered, formatDate)
  {
    var header := Join(CsvHeaders, ",");
    var rows := Rows(filtered, formatDate);
    LinesClean(filtered, formatDate);
    LinesReadBack(header, rows);
  }

  // -------------------------------------------------- memoisation finding

  /**
   * The page's `useMemo(..., [filters])` as written. React compares the
   * dependency by identity, and every `setFilters` call builds a new object,
   * so the memo is keyed on `filtersVersion`, the number of filter events so
   * far: the cached list is recomputed after any filter event, even one that
   * leaves the values equal, and never when only the enrollments change.
   */
  datatype FiltersOnlyMemo = FiltersOnlyMemo(filtersVersion: nat, value: seq<Value>)

  function RenderFiltersOnly(m: FiltersOnlyMemo, enrollments: seq<Value>, filters: Filters, filtersVersion: nat)
    : (r: FiltersOnlyMemo)
    ensures r.filtersVersion == filtersVersion
    ensures m.filtersVersion == filtersVersion ==> r.value == m.value
    ensures m.filtersVersion != filtersVersion ==> r.value == Filter(enrollments, filters)
  {
    if m.filtersVersion == filtersVersion then m else FiltersOnlyMemo(filtersVersion, Filter(enrollments, filters))
  }

  /**
   * The first render caches the empty list; when the first snapshot arrives
   * before any filter event, the page keeps showing the empty list (and
   * zero counts, and an empty export) although a record matches.
   */
  lemma FiltersOnlyMemoGoesStale()
    ensures var e := Obj([Entry("id", Str("k1")), Entry("childName", Str("Ada")), Entry("parentName", Str("Lin"))]);
      var first := RenderFiltersOnly(FiltersOnlyMemo(0, Filter([], DefaultFilters)), [], DefaultFilters, 0);
      var second := RenderFiltersOnly(first, [e], DefaultFilters, 0);
      second.value == [] && Filter([e], DefaultFilters) == [e]
  {
    var e := Obj([Entry("id", Str("k1")), Entry("childName", Str("Ada")), Entry("parentName", Str("Lin"))]);
    assert Get(e, "childName") == Str("Ada");
    DefaultFiltersKeepAll([e], "30d");
  }

  /**
   * The staleness lasts until the next filter event: clicking the chip that
   * is already active leaves the filter values equal but builds a new
   * object, and the memo then shows the current filter.
   */
  lemma FilterEventRefreshes(m: FiltersOnlyMemo, enrollments: seq<Value>, filters: Filters)
    ensures var next := MergeFilter(filters, TimeRangeField, filters.timeRange);
      && next == filters
      && RenderFiltersOnly(m, enrollments, next, m.filtersVersion + 1).value == Filter(enrollments, filters)
  {
  }

  /** The memo keyed on both inputs, as the applications page has it. */
  datatype FilterMemo = FilterMemo(enrollments: seq<Value>, filters: Filters, value: seq<Value>)

  ghost predicate Fresh(m: FilterMemo) {
    m.value == Filter(m.enrollments, m.filters)
  }

  function Render(m: FilterMemo, enrollments: seq<Value>, filters: Filters): (r: FilterMemo)
    requires Fresh(m)
    ensures Fresh(r) && r.enrollments == enrollments && r.filters == filters
    ensures r.value == Filter(enrollments, filters)
  {
    if m.enrollments == enrollments && m.filters == filters then m
    else FilterMemo(enrollments, filters, Filter(enrollments, filters))
  }
}
