/** The raw candidate record as the list endpoint returns it. */
module ApiRecords {
  import opened Wrappers
  import opened DocumentSummary

  /** `c.metadata`; each field is absent or a string. */
  datatype Metadata = Metadata(
    candidateName: Option<string>,
    email: Option<string>,
    employer: Option<string>,
    phonenumber: Option<string>,
    city: Option<string>)

  /**
   * One raw candidate. `documents` stands for `c.documents.pendingFiles`:
   * `None` when either object is absent or falsy.
   */
  datatype RawCandidate = RawCandidate(
    id: Option<string>,
    status: Option<string>,
    metadata: Option<Metadata>,
    documents: Option<PendingFiles>)

  /**
   * A field of the response body that should hold the candidate array:
   * absent, an array, or some other value with its JavaScript truthiness.
   */
  datatype ListField = Absent | Items(items: seq<RawCandidate>) | NotArray(truthy: bool)

  predicate ListTruthy(f: ListField) {
    match f
    case Absent => false
    case Items(_) => true
    case NotArray(t) => t
  }
}
