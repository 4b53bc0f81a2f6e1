/**
 * The paginated data table: its own normalisation (phone stored as
 * `phoneNumber`), the search filter, the status badge classes, the page
 * guard and the page-number buttons, plus the list state a page change replaces.
 */
module DataTable {
  import opened Wrappers
  import opened Strings
  import opened DocumentSummary
  import opened ApiRecords
  import CandidatesPage

  datatype TableRow = TableRow(
    id: Option<string>,
    candidateName: string,
    employer: string,
    phoneNumber: string,
    email: string,
    city: string,
    status: Status,
    documentSummary: seq<DocEntry>)

  /** The table's copy of the per-candidate normalisation. */
  function NormalizeRow(c: RawCandidate): (r: Option<TableRow>)
  {
    match BuildDocumentSummary(c.documents)
    case None => None
    case Some(docs) =>
      var finalStatus := if c.status != Some("DISCREPANCY") then ComputeStatusFromDocs(docs) else Discrepancy;
      var md := CandidatesPage.MetaOf(c.metadata);
      Some(TableRow(
        id := c.id,
        candidateName := CandidatesPage.OrDash(md.candidateName),
        employer := CandidatesPage.OrDash(md.employer),
        phoneNumber := CandidatesPage.OrDash(md.phonenumber),
        email := CandidatesPage.OrDash(md.email),
        city := CandidatesPage.OrDash(md.city),
        status := finalStatus,
        documentSummary := docs))
  }

  /**
   * The table's normalisation agrees with the list page's on every input:
   * same summary, same status (DISCREPANCY kept, everything else recomputed),
   * same columns, the phone number merely stored under another name.
   */
  lemma NormalizeRowAgrees(c: RawCandidate)
    ensures NormalizeRow(c).Some? <==> CandidatesPage.NormalizeCandidate(c).Some?
    ensures NormalizeRow(c).Some? ==>
      var t := NormalizeRow(c).value;
      var p := CandidatesPage.NormalizeCandidate(c).value;
      && t.id == p.id && t.candidateName == p.candidateName && t.email == p.email
      && t.employer == p.employer && t.phoneNumber == p.phonenumber && t.city == p.city
      && t.status == p.status && t.documentSummary == p.documentSummary
  {
  }

  /** `candidates.map(normalise)` on a successful response; `None` if any candidate throws. */
  function NormalizeRows(candidates: seq<RawCandidate>): (r: Option<seq<TableRow>>)
    ensures r.Some? ==> |r.value| == |candidates|
    ensures r.Some? ==> forall i :: 0 <= i < |candidates| ==> NormalizeRow(candidates[i]) == Some(r.value[i])
  {
    if candidates == [] then Some([])
    else
      var head := NormalizeRow(candidates[0]);
      var rest := NormalizeRows(candidates[1..]);
      if head.Some? && rest.Some? then Some([head.value] + rest.value) else None
  }

  // ----- search -----

  /** `(globalSearch || searchTerm).toLowerCase()` */
  function SearchTerm(globalSearch: string, searchTerm: string): string {
    ToLower(if globalSearch != "" then globalSearch else searchTerm)
  }

  /** One column after `.filter(Boolean)`, tested with `toLowerCase().includes(term)`. */
  predicate FieldMatches(field: string, term: string) {
    field != "" && Includes(ToLower(field), term)
  }

  /** Name, email, status, employer and city are searched; the phone number is not. */
  predicate RowMatches(row: TableRow, term: string) {
    FieldMatches(row.candidateName, term) || FieldMatches(row.email, term)
    || FieldMatches(StatusName(row.status), term) || FieldMatches(row.employer, term)
    || FieldMatches(row.city, term)
  }

  /** `candidates.filter(...)` */
  function FilterRows(rows: seq<TableRow>, term: string): (r: seq<TableRow>)
    ensures |r| <= |rows|
    ensures forall x :: x in r <==> x in rows && RowMatches(x, term)
  {
    if rows == [] then []
    else (if RowMatches(rows[0], term) then [rows[0]] else []) + FilterRows(rows[1..], term)
  }

  /** Filtering distributes over concatenation, so it keeps the rows' relative order. */
  lemma {:induction false} FilterKeepsOrder(a: seq<TableRow>, b: seq<TableRow>, term: string)
    ensures FilterRows(a + b, term) == FilterRows(a, term) + FilterRows(b, term)
  {
    if a == [] {
      assert a + b == b;
    } else {
      assert (a + b)[0] == a[0];
      assert (a + b)[1..] == a[1..] + b;
      FilterKeepsOrder(a[1..], b, term);
    }
  }

  /** With an empty search every row is kept, because the status column is never empty. */
  lemma {:induction false} EmptyTermKeepsAll(rows: seq<TableRow>)
    ensures FilterRows(rows, "") == rows
  {
    if rows != [] {
      IncludesEmpty(ToLower(StatusName(rows[0].status)));
      EmptyTermKeepsAll(rows[1..]);
    }
  }

  /** The search box and the global search: a non-empty global search wins. */
  function FilteredCandidates(rows: seq<TableRow>, globalSearch: string, searchTerm: string): seq<TableRow> {
    FilterRows(rows, SearchTerm(globalSearch, searchTerm))
  }

  /** The columns the search looks at, in the source's order. */
  function SearchedColumns(row: TableRow): seq<string> {
    [row.candidateName, row.email, StatusName(row.status), row.employer, row.city]
  }

  /** The lowered column is non-empty and contains `term` at some position. */
  ghost predicate ColumnContains(column: string, term: string) {
    column != "" && exists i :: OccursAt(ToLower(column), term, i)
  }

  /** A row matches exactly when one searched, non-empty column contains the term somewhere. */
  lemma RowMatchesMeaning(row: TableRow, term: string)
    ensures RowMatches(row, term) <==> exists j :: 0 <= j < 5 && ColumnContains(SearchedColumns(row)[j], term)
  {
    var cols := SearchedColumns(row);
    forall j | 0 <= j < 5 ensures FieldMatches(cols[j], term) <==> ColumnContains(cols[j], term) {
      IncludesIffOccurs(ToLower(cols[j]), term);
    }
    assert cols[0] == row.candidateName && cols[1] == row.email && cols[2] == StatusName(row.status)
      && cols[3] == row.employer && cols[4] == row.city;
    if RowMatches(row, term) {
      var j := if FieldMatches(cols[0], term) then 0 else if FieldMatches(cols[1], term) then 1
        else if FieldMatches(cols[2], term) then 2 else if FieldMatches(cols[3], term) then 3 else 4;
      assert FieldMatches(cols[j], term);
    }
  }

  /**
   * A row is kept exactly when one searched, non-empty column contains the
   * lowered term; a non-empty global search replaces the search box.
   */
  lemma FilteredCandidatesMeaning(rows: seq<TableRow>, globalSearch: string, searchTerm: string, row: TableRow)
    ensures var term := ToLower(if globalSearch != "" then globalSearch else searchTerm);
      row in FilteredCandidates(rows, globalSearch, searchTerm) <==>
      (row in rows && exists j :: 0 <= j < 5 && ColumnContains(SearchedColumns(row)[j], term))
  {
    RowMatchesMeaning(row, SearchTerm(globalSearch, searchTerm));
  }

  // ----- status badge -----

  const DefaultStatusClass: string := "bg-gray-300 text-gray-700"

  /** `getStatusClass(status)` */
  function StatusClass(status: string): string {
    if status == "COMPLETED" then "status-clear"
    else if status == "QUEUED" then "status-pending"
    else if status == "PENDING" then "status-discrepancy"
    else if status == "DISCREPANCY" then "status-discrepancy"
    else DefaultStatusClass
  }

  /**
   * Every status a normalised row can carry gets a coloured badge; only PENDING
   * and DISCREPANCY share one.
   */
  lemma StatusClassOfRows(s: Status, t: Status)
    ensures StatusClass(StatusName(s)) != DefaultStatusClass
    ensures StatusClass(StatusName(s)) == StatusClass(StatusName(t)) <==>
      s == t || (s in {Pending, Discrepancy} && t in {Pending, Discrepancy})
  {
  }

  // ----- pagination -----

  /** `pagination`; each field absent or a number. */
  datatype Pagination = Pagination(currentPage: Option<int>, totalPages: Option<int>)

  /** `pagination?.totalPages || 1` */
  function PageLimit(p: Pagination): int {
    if p.totalPages.None? || p.totalPages.value == 0 then 1 else p.totalPages.value
  }

  /** The guard of `handlePageChange`: whether the new page is fetched. */
  predicate ShouldFetch(newPage: int, p: Pagination) {
    !(newPage < 1 || newPage > PageLimit(p) || Some(newPage) == p.currentPage)
  }

  /** `Array.from({ length: totalPages || 1 }, (_, i) => i + 1)`; a negative length gives no buttons. */
  function PageButtons(p: Pagination): (r: seq<int>)
    ensures |r| == if PageLimit(p) < 0 then 0 else PageLimit(p)
    ensures forall i :: 0 <= i < |r| ==> r[i] == i + 1
  {
    var n := if PageLimit(p) < 0 then 0 else PageLimit(p);
    seq(n, i => i + 1)
  }

  /** A page is fetched exactly when it is one of the buttons and not the current page. */
  lemma ShouldFetchIffButton(newPage: int, p: Pagination)
    ensures ShouldFetch(newPage, p) <==> newPage in PageButtons(p) && Some(newPage) != p.currentPage
  {
    var buttons := PageButtons(p);
    if 1 <= newPage <= PageLimit(p) {
      assert buttons[newPage - 1] == newPage;
    }
  }

  /** What one fetch of the candidates endpoint yields. */
  datatype PageResponse =
    | Loaded(candidates: seq<RawCandidate>, pagination: Option<Pagination>)
    | Failed(message: string)

  datatype ErrorState = NoError | FetchError(message: string) | NormalizationError

  /** The table's list state, replaced wholesale by each fetch. */
  class ListView {
    var candidates: seq<TableRow>
    var pagination: Pagination
    var isLoading: bool
    var error: ErrorState

    constructor (initialPagination: Option<Pagination>)
      ensures candidates == [] && isLoading && error == NoError
      ensures pagination == initialPagination.GetOr(Pagination(None, None))
    {
      candidates := [];
      pagination := initialPagination.GetOr(Pagination(None, None));
      isLoading := true;
      error := NoError;
    }

    /** `fetchCandidates` once its response is known. */
    method ApplyFetch(response: PageResponse)
      modifies this
      ensures !isLoading
      ensures response.Loaded? && NormalizeRows(response.candidates).Some? ==>
        candidates == NormalizeRows(response.candidates).value
        && pagination == response.pagination.GetOr(Pagination(None, None))
        && error == NoError
      ensures response.Loaded? && NormalizeRows(response.candidates).None? ==>
        candidates == old(candidates) && pagination == old(pagination) && error == NormalizationError
      ensures response.Failed? ==>
        candidates == old(candidates) && pagination == old(pagination) && error == FetchError(response.message)
    {
      isLoading := true;
      error := NoError;
      match response {
        case Failed(message) =>
          error := FetchError(message);
        case Loaded(raw, pg) =>
          var rows := NormalizeRows(raw);
          if rows.Some? {
            candidates := rows.value;
            pagination := pg.GetOr(Pagination(None, None));
          } else {
            error := NormalizationError;
          }
      }
      isLoading := false;
    }

    /** `handlePageChange(newPage)`: does nothing unless the guard lets the page through. */
    method HandlePageChange(newPage: int, response: PageResponse) returns (fetched: bool)
      modifies this
      ensures fetched <==> ShouldFetch(newPage, old(pagination))
      ensures !fetched ==> unchanged(this)
      ensures fetched ==> !isLoading
      ensures fetched && response.Loaded? && NormalizeRows(response.candidates).Some? ==>
        candidates == NormalizeRows(response.candidates).value
        && pagination == response.pagination.GetOr(Pagination(None, None)) && error == NoError
      ensures fetched && response.Loaded? && NormalizeRows(response.candidates).None? ==>
        candidates == old(candidates) && pagination == old(pagination) && error == NormalizationError
      ensures fetched && response.Failed? ==>
        candidates == old(candidates) && pagination == old(pagination) && error == FetchError(response.message)
    {
      fetched := ShouldFetch(newPage, pagination);
      if fetched {
        ApplyFetch(response);
      }
    }
  }
}
