/**
 * The HR dashboard: its own, loop-based status calculation and the three
 * summary counts shown on the top cards.
 */
module Home {
  import opened Wrappers
  import opened DocumentSummary
  import opened ApiRecords

  /** A required key counts as submitted when it holds a non-empty array or string. */
  predicate Submitted(v: RawValue) {
    (v.List? && |v.items| > 0) || (v.Text? && v.s != "")
  }

  /** Number of `keys` submitted in `pf`. */
  function SubmittedCount(keys: seq<string>, pf: PendingFiles): (n: nat)
    ensures n <= |keys|
  {
    if keys == [] then 0
    else (if Submitted(Lookup(pf, keys[0])) then 1 else 0) + SubmittedCount(keys[1..], pf)
  }

  /** The count-to-status rule: none, some, or all of `total`. */
  function StatusForCount(submitted: nat, total: nat): Status {
    if submitted == 0 then Pending else if submitted < total then Queued else Completed
  }

  /** The status `calculateStatus` returns, as a function of the pending files. */
  function HomeStatus(pf: PendingFiles): Status {
    StatusForCount(SubmittedCount(RequiredDocs, pf), |RequiredDocs|)
  }

  /** `calculateStatus(pendingFiles)`: one pass over the required keys with a counter. */
  method CalculateStatus(pf: PendingFiles) returns (status: Status)
    ensures status == HomeStatus(pf)
  {
    var submitted := 0;
    var i := 0;
    while i < |RequiredDocs|
      invariant 0 <= i <= |RequiredDocs|
      invariant submitted + SubmittedCount(RequiredDocs[i..], pf) == SubmittedCount(RequiredDocs, pf)
    {
      var v := Lookup(pf, RequiredDocs[i]);
      if v.List? && |v.items| > 0 {
        submitted := submitted + 1;
      } else if v.Text? && v.s != "" {
        submitted := submitted + 1;
      }
      assert RequiredDocs[i..][1..] == RequiredDocs[i + 1..];
      i := i + 1;
    }
    if submitted == 0 {
      status := Pending;
    } else if submitted < |RequiredDocs| {
      status := Queued;
    } else {
      status := Completed;
    }
  }

  lemma {:induction false} SubmittedCountExtremes(keys: seq<string>, pf: PendingFiles)
    ensures SubmittedCount(keys, pf) == 0 <==> forall i :: 0 <= i < |keys| ==> !Submitted(Lookup(pf, keys[i]))
    ensures SubmittedCount(keys, pf) == |keys| <==> forall i :: 0 <= i < |keys| ==> Submitted(Lookup(pf, keys[i]))
  {
    if keys != [] {
      SubmittedCountExtremes(keys[1..], pf);
      assert forall i :: 1 <= i < |keys| ==> keys[i] == keys[1..][i - 1];
    }
  }

  /**
   * The dashboard status: PENDING when no required key is submitted, COMPLETED
   * when all eleven are, QUEUED otherwise, and never DISCREPANCY.
   */
  lemma HomeStatusMeaning(pf: PendingFiles)
    ensures HomeStatus(pf) != Discrepancy
    ensures HomeStatus(pf) == Pending <==> forall i :: 0 <= i < 11 ==> !Submitted(Lookup(pf, RequiredDocs[i]))
    ensures HomeStatus(pf) == Completed <==> forall i :: 0 <= i < 11 ==> Submitted(Lookup(pf, RequiredDocs[i]))
  {
    SubmittedCountExtremes(RequiredDocs, pf);
  }

  /** Presence in the summary entry is exactly Home's notion of "submitted". */
  lemma PresenceIsSubmitted(key: string, v: RawValue)
    requires BuildEntry(key, v).Some?
    ensures BuildEntry(key, v).value.isPresent <==> Submitted(v)
  {
    BuildEntryMeaning(key, v);
  }

  lemma {:induction false} PresentCountIsSubmittedCount(keys: seq<string>, pf: PendingFiles, docs: seq<DocEntry>)
    requires |docs| == |keys|
    requires forall i :: 0 <= i < |keys| ==> (docs[i].isPresent <==> Submitted(Lookup(pf, keys[i])))
    ensures PresentCount(docs) == SubmittedCount(keys, pf)
  {
    if keys != [] {
      assert forall i :: 1 <= i < |keys| ==> keys[1..][i - 1] == keys[i] && docs[1..][i - 1] == docs[i];
      PresentCountIsSubmittedCount(keys[1..], pf, docs[1..]);
    }
  }

  /**
   * Wherever the list page's builder succeeds, the dashboard's loop-based
   * status equals the status the list page computes from its summary.
   */
  lemma HomeAgreesWithSummary(pf: PendingFiles)
    requires BuildDocumentSummary(Some(pf)).Some?
    ensures ComputeStatusFromDocs(BuildDocumentSummary(Some(pf)).value) == HomeStatus(pf)
  {
    StatusAgreesOn(RequiredDocs, pf);
  }

  lemma StatusAgreesOn(keys: seq<string>, pf: PendingFiles)
    requires BuildFrom(keys, pf).Some?
    ensures ComputeStatusFromDocs(BuildFrom(keys, pf).value) == StatusForCount(SubmittedCount(keys, pf), |keys|)
  {
    var docs := BuildFrom(keys, pf).value;
    forall i | 0 <= i < |keys| ensures docs[i].isPresent <==> Submitted(Lookup(pf, keys[i])) {
      PresenceIsSubmitted(keys[i], Lookup(pf, keys[i]));
    }
    PresentCountIsSubmittedCount(keys, pf, docs);
  }

  /** The response body: a bare array, or an object holding the array under one of three names. */
  datatype Payload =
    | ArrayBody(items: seq<RawCandidate>)
    | ObjectBody(data: ListField, employees: ListField, candidates: ListField)

  /**
   * `Array.isArray(data) ? data : data.data || data.employees || data.candidates || []`;
   * `None` when the chosen value is a truthy non-array (the later `.map` throws).
   */
  function CandidatesArray(p: Payload): (r: Option<seq<RawCandidate>>)
    ensures p.ArrayBody? ==> r == Some(p.items)
    ensures p.ObjectBody? && ListTruthy(p.data) ==> ListChoice(p.data, r)
    ensures p.ObjectBody? && !ListTruthy(p.data) && ListTruthy(p.employees) ==> ListChoice(p.employees, r)
    ensures p.ObjectBody? && !ListTruthy(p.data) && !ListTruthy(p.employees) && ListTruthy(p.candidates) ==>
      ListChoice(p.candidates, r)
    ensures p.ObjectBody? && !ListTruthy(p.data) && !ListTruthy(p.employees) && !ListTruthy(p.candidates) ==> r == Some([])
  {
    match p
    case ArrayBody(items) => Some(items)
    case ObjectBody(data, employees, candidates) =>
      var chosen := if ListTruthy(data) then data
        else if ListTruthy(employees) then employees
        else candidates;
      match chosen
      case Items(items) => Some(items)
      case _ => if ListTruthy(chosen) then None else Some([])
  }

  /**
   * What the page gets from the truthy field it chose: the array's items, or
   * `None` for a truthy non-array, on which `.map` throws.
   */
  predicate ListChoice(chosen: ListField, r: Option<seq<RawCandidate>>) {
    && (chosen.Items? ==> r == Some(chosen.items))
    && (chosen.NotArray? ==> r.None?)
  }

  /** `{ ...c, computedStatus }` */
  datatype Processed = Processed(candidate: RawCandidate, computedStatus: Status)

  function Process(c: RawCandidate): Processed {
    Processed(c, HomeStatus(PendingFilesOf(c.documents)))
  }

  function ProcessAll(cs: seq<RawCandidate>): (r: seq<Processed>)
    ensures |r| == |cs|
    ensures forall i :: 0 <= i < |cs| ==> r[i].candidate == cs[i]
    ensures forall i :: 0 <= i < |cs| ==> r[i].computedStatus == HomeStatus(PendingFilesOf(cs[i].documents))
    ensures forall i :: 0 <= i < |cs| ==> r[i].computedStatus != Discrepancy
  {
    seq(|cs|, i requires 0 <= i < |cs| => (HomeStatusMeaning(PendingFilesOf(cs[i].documents)); Process(cs[i])))
  }

  /** Number of processed candidates whose computed status is `s`. */
  function CountStatus(ps: seq<Processed>, s: Status): (n: nat)
    ensures n <= |ps|
  {
    if ps == [] then 0 else (if ps[0].computedStatus == s then 1 else 0) + CountStatus(ps[1..], s)
  }

  /** Counting a status is additive over concatenation. */
  lemma {:induction false} CountStatusAppend(a: seq<Processed>, b: seq<Processed>, s: Status)
    ensures CountStatus(a + b, s) == CountStatus(a, s) + CountStatus(b, s)
  {
    if a == [] {
      assert a + b == b;
    } else {
      CountStatusAppend(a[1..], b, s);
      assert (a + b)[1..] == a[1..] + b;
    }
  }

  /** The count is 0 exactly when no entry has the status, and full exactly when every entry has it. */
  lemma {:induction false} CountStatusExtremes(ps: seq<Processed>, s: Status)
    ensures CountStatus(ps, s) == 0 <==> forall i :: 0 <= i < |ps| ==> ps[i].computedStatus != s
    ensures CountStatus(ps, s) == |ps| <==> forall i :: 0 <= i < |ps| ==> ps[i].computedStatus == s
  {
    if ps != [] {
      CountStatusExtremes(ps[1..], s);
      assert forall i :: 1 <= i < |ps| ==> ps[i] == ps[1..][i - 1];
    }
  }

  datatype SummaryData = SummaryData(totalCandidates: nat, clear: nat, pending: nat)

  function Summarize(ps: seq<Processed>): SummaryData {
    SummaryData(|ps|, CountStatus(ps, Completed), CountStatus(ps, Pending))
  }

  lemma {:induction false} DistinctCountsBounded(ps: seq<Processed>, s: Status, t: Status)
    requires s != t
    ensures CountStatus(ps, s) + CountStatus(ps, t) <= |ps|
  {
    if ps != [] {
      DistinctCountsBounded(ps[1..], s, t);
    }
  }

  /** The summary cards of one successful response; `None` when the response makes the page throw. */
  function SummaryFromPayload(p: Payload): (r: Option<SummaryData>)
    ensures r.Some? <==> CandidatesArray(p).Some?
    ensures r.Some? ==> r.value.totalCandidates == |CandidatesArray(p).value|
    ensures r.Some? ==> r.value.clear == CountStatus(ProcessAll(CandidatesArray(p).value), Completed)
    ensures r.Some? ==> r.value.pending == CountStatus(ProcessAll(CandidatesArray(p).value), Pending)
    ensures r.Some? ==> r.value.clear + r.value.pending <= r.value.totalCandidates
  {
    match CandidatesArray(p)
    case None => None
    case Some(cs) =>
      var ps := ProcessAll(cs);
      DistinctCountsBounded(ps, Completed, Pending);
      Some(Summarize(ps))
  }

  /** A status count over the processed list, in terms of the candidates' own statuses. */
  lemma CountOfCandidates(cs: seq<RawCandidate>, s: Status)
    ensures CountStatus(ProcessAll(cs), s) == 0 <==> forall i :: 0 <= i < |cs| ==> HomeStatus(PendingFilesOf(cs[i].documents)) != s
    ensures CountStatus(ProcessAll(cs), s) == |cs| <==> forall i :: 0 <= i < |cs| ==> HomeStatus(PendingFilesOf(cs[i].documents)) == s
  {
    var ps := ProcessAll(cs);
    CountStatusExtremes(ps, s);
    assert forall i :: 0 <= i < |cs| ==> ps[i].computedStatus == HomeStatus(PendingFilesOf(cs[i].documents));
  }

  /**
   * The cards in terms of the candidates: "clear" is 0 iff no candidate has
   * every required document, and equals the total iff all of them do;
   * "pending" is 0 iff every candidate has submitted something.
   */
  lemma SummaryCardsMeaning(p: Payload)
    requires SummaryFromPayload(p).Some?
    ensures var cs := CandidatesArray(p).value; var sd := SummaryFromPayload(p).value;
      && (sd.clear == 0 <==> forall i :: 0 <= i < |cs| ==> HomeStatus(PendingFilesOf(cs[i].documents)) != Completed)
      && (sd.clear == sd.totalCandidates <==> forall i :: 0 <= i < |cs| ==> HomeStatus(PendingFilesOf(cs[i].documents)) == Completed)
      && (sd.pending == 0 <==> forall i :: 0 <= i < |cs| ==> HomeStatus(PendingFilesOf(cs[i].documents)) != Pending)
  {
    var cs := CandidatesArray(p).value;
    CountOfCandidates(cs, Completed);
    CountOfCandidates(cs, Pending);
  }
}
