/** The candidate list page: per-candidate normalisation of the fetched records. */
module CandidatesPage {
  import opened Wrappers
  import opened DocumentSummary
  import opened ApiRecords

  /** Placeholder shown for a missing metadata field. */
  const Dash: string := "—"

  /** `value || "—"`: a missing or empty field becomes the placeholder. */
  function OrDash(value: Option<string>): (r: string)
    ensures r != ""
    ensures r == Dash <==> value.None? || value.value == "" || value.value == Dash
    ensures r != Dash ==> value == Some(r)
  {
    if value.Some? && value.value != "" then value.value else Dash
  }

  /** `c.metadata?.<field>`: an absent metadata object reads as one with every field absent. */
  function MetaOf(md: Option<Metadata>): (m: Metadata)
    ensures md.Some? ==> m == md.value
    ensures md.None? ==> m.candidateName.None? && m.email.None? && m.employer.None? && m.phonenumber.None? && m.city.None?
  {
    md.GetOr(Metadata(None, None, None, None, None))
  }

  /** A row shows each metadata column as given, or the dash when it is missing or empty. */
  lemma RowColumns(c: RawCandidate, md: Metadata)
    requires c.metadata == Some(md) && NormalizeCandidate(c).Some?
    ensures var row := NormalizeCandidate(c).value;
      && (md.candidateName.Some? && md.candidateName.value != "" ==> row.candidateName == md.candidateName.value)
      && (md.email.Some? && md.email.value != "" ==> row.email == md.email.value)
      && (md.employer.Some? && md.employer.value != "" ==> row.employer == md.employer.value)
      && (md.phonenumber.Some? && md.phonenumber.value != "" ==> row.phonenumber == md.phonenumber.value)
      && (md.city.Some? && md.city.value != "" ==> row.city == md.city.value)
    ensures var row := NormalizeCandidate(c).value;
      && (md.candidateName.None? || md.candidateName.value == "" ==> row.candidateName == Dash)
      && (md.email.None? || md.email.value == "" ==> row.email == Dash)
      && (md.employer.None? || md.employer.value == "" ==> row.employer == Dash)
      && (md.phonenumber.None? || md.phonenumber.value == "" ==> row.phonenumber == Dash)
      && (md.city.None? || md.city.value == "" ==> row.city == Dash)
  {
  }

  /** Without a metadata object every column of the row is the dash. */
  lemma RowWithoutMetadata(c: RawCandidate)
    requires c.metadata.None? && NormalizeCandidate(c).Some?
    ensures var row := NormalizeCandidate(c).value;
      row.candidateName == Dash && row.email == Dash && row.employer == Dash && row.phonenumber == Dash && row.city == Dash
  {
  }

  /** The normalised record the page renders. */
  datatype CandidateRow = CandidateRow(
    id: Option<string>,
    candidateName: string,
    email: string,
    employer: string,
    phonenumber: string,
    city: string,
    status: Status,
    documentSummary: seq<DocEntry>)

  /** The normalisation of one candidate; `None` when its summary throws. */
  function NormalizeCandidate(c: RawCandidate): (r: Option<CandidateRow>)
    ensures r.Some? <==> BuildDocumentSummary(c.documents).Some?
    ensures r.Some? ==> r.value.documentSummary == BuildDocumentSummary(c.documents).value
    ensures r.Some? ==> (r.value.status == Discrepancy <==> c.status == Some("DISCREPANCY"))
    ensures r.Some? && c.status != Some("DISCREPANCY") ==> r.value.status == ComputeStatusFromDocs(r.value.documentSummary)
    ensures r.Some? ==> r.value.id == c.id
    ensures r.Some? ==> r.value.candidateName == OrDash(MetaOf(c.metadata).candidateName)
    ensures r.Some? ==> r.value.email == OrDash(MetaOf(c.metadata).email)
    ensures r.Some? ==> r.value.employer == OrDash(MetaOf(c.metadata).employer)
    ensures r.Some? ==> r.value.phonenumber == OrDash(MetaOf(c.metadata).phonenumber)
    ensures r.Some? ==> r.value.city == OrDash(MetaOf(c.metadata).city)
  {
    match BuildDocumentSummary(c.documents)
    case None => None
    case Some(docs) =>
      var md := MetaOf(c.metadata);
      Some(CandidateRow(
        id := c.id,
        candidateName := OrDash(md.candidateName),
        email := OrDash(md.email),
        employer := OrDash(md.employer),
        phonenumber := OrDash(md.phonenumber),
        city := OrDash(md.city),
        status := FinalStatus(c.status, docs),
        documentSummary := docs))
  }

  /** Every text column of a normalised row is non-empty. */
  lemma RowFieldsNonEmpty(c: RawCandidate)
    requires NormalizeCandidate(c).Some?
    ensures var row := NormalizeCandidate(c).value;
      row.candidateName != "" && row.email != "" && row.employer != ""
      && row.phonenumber != "" && row.city != "" && StatusName(row.status) != ""
      && |row.documentSummary| == 11
  {
    SummaryShape(c.documents);
  }

  /** `(data.candidates || []).map(normalise)`; `None` if any candidate throws. */
  function NormalizeAll(candidates: seq<RawCandidate>): (r: Option<seq<CandidateRow>>)
    ensures r.Some? ==> |r.value| == |candidates|
  {
    if candidates == [] then Some([])
    else
      var head := NormalizeCandidate(candidates[0]);
      var rest := NormalizeAll(candidates[1..]);
      if head.Some? && rest.Some? then Some([head.value] + rest.value) else None
  }

  /** Row `i` of a successful list is candidate `i`'s own row. */
  lemma {:induction false} NormalizeAllAt(candidates: seq<RawCandidate>, i: nat)
    requires NormalizeAll(candidates).Some? && i < |candidates|
    ensures NormalizeCandidate(candidates[i]) == Some(NormalizeAll(candidates).value[i])
    decreases i
  {
    var tail := candidates[1..];
    var r := NormalizeAll(candidates).value;
    assert r == [NormalizeCandidate(candidates[0]).value] + NormalizeAll(tail).value;
    if i > 0 {
      NormalizeAllAt(tail, i - 1);
      assert candidates[i] == tail[i - 1];
      assert r[i] == NormalizeAll(tail).value[i - 1];
    }
  }

  /** A successful list holds each candidate's own row, in order. */
  lemma NormalizeAllPointwise(candidates: seq<RawCandidate>)
    ensures NormalizeAll(candidates).Some? ==>
      forall i :: 0 <= i < |candidates| ==> NormalizeCandidate(candidates[i]) == Some(NormalizeAll(candidates).value[i])
  {
    if NormalizeAll(candidates).Some? {
      forall i | 0 <= i < |candidates| ensures NormalizeCandidate(candidates[i]) == Some(NormalizeAll(candidates).value[i]) {
        NormalizeAllAt(candidates, i);
      }
    }
  }

  /** The page falls into its error state exactly when some candidate's summary throws. */
  lemma {:induction false} NormalizeAllFails(candidates: seq<RawCandidate>)
    ensures NormalizeAll(candidates).None? <==> exists i :: 0 <= i < |candidates| && NormalizeCandidate(candidates[i]).None?
  {
    if candidates != [] {
      NormalizeAllFails(candidates[1..]);
      if NormalizeAll(candidates[1..]).None? {
        var j :| 0 <= j < |candidates[1..]| && NormalizeCandidate(candidates[1..][j]).None?;
        assert candidates[1..][j] == candidates[j + 1];
      }
      forall i | 1 <= i < |candidates| ensures candidates[i] == candidates[1..][i - 1] { }
    }
  }

  /** `data.candidates || []` as `map` sees it: a truthy non-array makes `map` throw (`None`). */
  function CandidatesOf(field: ListField): (r: Option<seq<RawCandidate>>)
    ensures !ListTruthy(field) ==> r == Some([])
    ensures field.Items? ==> r == Some(field.items)
    ensures r.None? <==> field.NotArray? && ListTruthy(field)
  {
    if !ListTruthy(field) then Some([])
    else match field
      case Items(items) => Some(items)
      case _ => None
  }

  /** The rows the page stores after a successful response; `None` when the handler throws. */
  function PageRows(field: ListField): Option<seq<CandidateRow>> {
    match CandidatesOf(field)
    case None => None
    case Some(cs) => NormalizeAll(cs)
  }

  /**
   * The page's list: empty without a truthy `candidates`; otherwise the error
   * state exactly when the field is not an array or some candidate's summary
   * throws, and else each candidate's own row, in order.
   */
  lemma PageRowsMeaning(field: ListField)
    ensures !ListTruthy(field) ==> PageRows(field) == Some([])
    ensures PageRows(field).None? <==>
      (field.NotArray? && ListTruthy(field))
      || (field.Items? && exists i :: 0 <= i < |field.items| && NormalizeCandidate(field.items[i]).None?)
    ensures field.Items? && PageRows(field).Some? ==>
      |PageRows(field).value| == |field.items|
      && forall i :: 0 <= i < |field.items| ==> NormalizeCandidate(field.items[i]) == Some(PageRows(field).value[i])
  {
    if field.Items? {
      NormalizeAllFails(field.items);
      NormalizeAllPointwise(field.items);
    }
  }
}
