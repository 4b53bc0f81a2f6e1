/**
 * The document summary builder and the status classifier shared by the
 * candidate list page and the data table (the table holds a textually
 * identical copy, so one definition models both).
 */
module DocumentSummary {
  import opened Wrappers
  import opened Strings

  /** The eleven mandatory document keys, in display order. */
  const RequiredDocs: seq<string> := [
    "tenthMarksheet", "twelfthMarksheet", "bachelorsDegree", "bachelorsResult",
    "identityProof", "policeVerification", "aadhaarOrDomicile", "salarySlips",
    "relievingLetter", "resume", "bankDetails"
  ]

  /** Base URL of the document service that serves uploaded files. */
  const FileServiceBase: string := "http://192.168.1.32:8001/"

  /**
   * A value found under a key of `pendingFiles`: `Missing` is `undefined` or
   * `null`; `Other` is a number, boolean or object, with its JavaScript truthiness.
   */
  datatype RawValue = Missing | Text(s: string) | List(items: seq<string>) | Other(truthy: bool)

  /** JavaScript truthiness (`!!raw`); every array is truthy, even an empty one. */
  predicate Truthy(v: RawValue) {
    match v
    case Missing => false
    case Text(s) => s != ""
    case List(_) => true
    case Other(t) => t
  }

  /** The map of pending files; keys that are not in it read as `Missing`. */
  type PendingFiles = map<string, RawValue>

  function Lookup(pf: PendingFiles, key: string): RawValue {
    if key in pf then pf[key] else Missing
  }

  /** `documents?.pendingFiles || {}`: an absent or falsy map reads as empty. */
  function PendingFilesOf(documents: Option<PendingFiles>): PendingFiles {
    documents.GetOr(map[])
  }

  datatype FileRef = FileRef(fileName: string, fileApiUrl: string)

  /**
   * One entry of the summary. `doc_label` is a pure function of `doc_key`, so
   * it is a member computed from the key rather than a stored field.
   */
  datatype DocEntry = DocEntry(docKey: string, isPresent: bool, files: seq<FileRef>)
  {
    function docLabel(): string {
      DocLabel(docKey)
    }
  }

  /** `path.replace(/\\/g, "/")`: every backslash becomes a forward slash. */
  function NormalizePath(path: string): (r: string)
    ensures |r| == |path|
    ensures forall i :: 0 <= i < |path| ==> r[i] == (if path[i] == '\\' then '/' else path[i])
  {
    if path == [] then []
    else [if path[0] == '\\' then '/' else path[0]] + NormalizePath(path[1..])
  }

  lemma NormalizePathClean(path: string)
    ensures '\\' !in NormalizePath(path)
    ensures NormalizePath(NormalizePath(path)) == NormalizePath(path)
  {
  }

  /** `path.split("_").pop()`: the text after the last underscore, or all of it. */
  function AfterLastUnderscore(path: string): string {
    if path == [] then []
    else if path[|path| - 1] == '_' then []
    else AfterLastUnderscore(path[..|path| - 1]) + [path[|path| - 1]]
  }

  /** The file name is a suffix of the path and contains no `_`. */
  lemma {:induction false} AfterLastUnderscoreSuffix(path: string)
    ensures var r := AfterLastUnderscore(path);
      |r| <= |path| && path[|path| - |r|..] == r && '_' !in r
  {
    if path != [] && path[|path| - 1] != '_' {
      var init := path[..|path| - 1];
      var last := path[|path| - 1];
      AfterLastUnderscoreSuffix(init);
      var q := AfterLastUnderscore(init);
      assert path == init + [last];
      assert path[|init| - |q|..] == init[|init| - |q|..] + [last];
      assert forall i :: 0 <= i < |q| + 1 ==> (q + [last])[i] == if i < |q| then q[i] else last;
    }
  }

  /** When the file name is shorter than the path, an `_` comes right before it. */
  lemma {:induction false} AfterLastUnderscoreCut(path: string)
    ensures var r := AfterLastUnderscore(path);
      |r| < |path| ==> path[|path| - |r| - 1] == '_'
  {
    AfterLastUnderscoreSuffix(path);
    if path != [] && path[|path| - 1] != '_' {
      var init := path[..|path| - 1];
      AfterLastUnderscoreCut(init);
      AfterLastUnderscoreSuffix(init);
      var q := AfterLastUnderscore(init);
      if |q| < |init| {
        assert path[|path| - |q| - 2] == init[|init| - |q| - 1];
      }
    }
  }

  /** A path without `_` is its own file name. */
  lemma {:induction false} AfterLastUnderscoreWhole(path: string)
    requires '_' !in path
    ensures AfterLastUnderscore(path) == path
  {
    if path != [] {
      var init := path[..|path| - 1];
      assert '_' !in init by {
        forall i | 0 <= i < |init| ensures init[i] != '_' {
          assert init[i] == path[i];
        }
      }
      AfterLastUnderscoreWhole(init);
      assert path == init + [path[|path| - 1]];
    }
  }

  function ToFileObject(path: string): FileRef {
    FileRef(AfterLastUnderscore(path), FileServiceBase + path)
  }

  /** `key.replace(/([A-Z])/g, " $1")` */
  function SpaceBeforeCapitals(key: string): string {
    if key == [] then []
    else (if IsAsciiUpper(key[0]) then [' ', key[0]] else [key[0]]) + SpaceBeforeCapitals(key[1..])
  }

  /** The human-readable label: a space before every capital, then trimmed. */
  function DocLabel(key: string): string {
    Trim(SpaceBeforeCapitals(key))
  }

  /** The spaced key never starts with a capital: a capital always has its space before it. */
  lemma SpaceBeforeCapitalsFirst(key: string)
    ensures SpaceBeforeCapitals(key) != [] ==> !IsAsciiUpper(SpaceBeforeCapitals(key)[0])
  {
  }

  /** Every capital of the spaced key has a space right before it. */
  lemma {:induction false} CapitalsFollowSpaces(key: string)
    ensures var r := SpaceBeforeCapitals(key);
      forall j :: 0 <= j < |r| && IsAsciiUpper(r[j]) ==> j > 0 && r[j - 1] == ' '
  {
    if key != [] {
      var head := if IsAsciiUpper(key[0]) then [' ', key[0]] else [key[0]];
      var rest := SpaceBeforeCapitals(key[1..]);
      var r := SpaceBeforeCapitals(key);
      assert r == head + rest;
      CapitalsFollowSpaces(key[1..]);
      SpaceBeforeCapitalsFirst(key[1..]);
      forall j | 0 <= j < |r| && IsAsciiUpper(r[j]) ensures j > 0 && r[j - 1] == ' ' {
        if j >= |head| {
          assert r[j] == rest[j - |head|];
          if j > |head| {
            assert r[j - 1] == rest[j - 1 - |head|];
          }
        }
      }
    }
  }

  /** Removes each space that stands right before a capital: the inverse of `SpaceBeforeCapitals`. */
  function UnspaceCapitals(s: string): string
    decreases |s|
  {
    if s == [] then []
    else if |s| >= 2 && s[0] == ' ' && IsAsciiUpper(s[1]) then [s[1]] + UnspaceCapitals(s[2..])
    else [s[0]] + UnspaceCapitals(s[1..])
  }

  /** The spaces inserted are exactly the ones before capitals: removing those gives back the key. */
  lemma {:induction false} SpaceBeforeCapitalsRoundTrip(key: string)
    ensures UnspaceCapitals(SpaceBeforeCapitals(key)) == key
  {
    if key != [] {
      var rest := SpaceBeforeCapitals(key[1..]);
      var r := SpaceBeforeCapitals(key);
      SpaceBeforeCapitalsRoundTrip(key[1..]);
      if IsAsciiUpper(key[0]) {
        assert r == [' ', key[0]] + rest;
        assert r[2..] == rest;
      } else {
        assert r == [key[0]] + rest;
        assert r[1..] == rest;
        SpaceBeforeCapitalsFirst(key[1..]);
      }
      assert key == [key[0]] + key[1..];
    }
  }

  /** Spacing a key works piece by piece. */
  lemma {:induction false} SpaceBeforeCapitalsAppend(a: string, b: string)
    ensures SpaceBeforeCapitals(a + b) == SpaceBeforeCapitals(a) + SpaceBeforeCapitals(b)
  {
    if a == [] {
      assert a + b == b;
    } else {
      var head := if IsAsciiUpper(a[0]) then [' ', a[0]] else [a[0]];
      var ab := a + b;
      assert ab[0] == a[0] && ab[1..] == a[1..] + b;
      assert SpaceBeforeCapitals(ab) == head + SpaceBeforeCapitals(a[1..] + b);
      SpaceBeforeCapitalsAppend(a[1..], b);
      assert SpaceBeforeCapitals(a) == head + SpaceBeforeCapitals(a[1..]);
    }
  }

  /** A key without capitals is left as it is. */
  lemma {:induction false} SpaceBeforeCapitalsNoCapitals(key: string)
    requires forall i :: 0 <= i < |key| ==> !IsAsciiUpper(key[i])
    ensures SpaceBeforeCapitals(key) == key
  {
    if key != [] {
      SpaceBeforeCapitalsNoCapitals(key[1..]);
      assert key == [key[0]] + key[1..];
    }
  }

  /** A camel-case key of two words gets one space, before the second word's capital. */
  lemma TwoWords(x: string, c: char, y: string)
    requires IsAsciiUpper(c)
    requires forall i :: 0 <= i < |x| ==> !IsAsciiUpper(x[i])
    requires forall i :: 0 <= i < |y| ==> !IsAsciiUpper(y[i])
    ensures SpaceBeforeCapitals(x + [c] + y) == x + [' ', c] + y
  {
    SpaceBeforeCapitalsAppend(x + [c], y);
    SpaceBeforeCapitalsAppend(x, [c]);
    SpaceBeforeCapitalsNoCapitals(x);
    SpaceBeforeCapitalsNoCapitals(y);
    assert SpaceBeforeCapitals([c]) == [' ', c];
  }

  /** The first required key, spaced. */
  lemma SpacedExample()
    ensures SpaceBeforeCapitals("tenthMarksheet") == "tenth Marksheet"
  {
    TwoWords("tenth", 'M', "arksheet");
    assert "tenth" + ['M'] + "arksheet" == "tenthMarksheet";
    assert "tenth" + [' ', 'M'] + "arksheet" == "tenth Marksheet";
  }

  /** The label of the first required key. */
  lemma DocLabelExample()
    ensures DocLabel("tenthMarksheet") == "tenth Marksheet"
  {
    SpacedExample();
    TrimUnpadded("tenth Marksheet");
  }

  lemma {:induction false} SpaceBeforeCapitalsOnlyAddsSpaces(key: string)
    ensures DropWhitespace(SpaceBeforeCapitals(key)) == DropWhitespace(key)
  {
    if key != [] {
      var head := if IsAsciiUpper(key[0]) then [' ', key[0]] else [key[0]];
      SpaceBeforeCapitalsOnlyAddsSpaces(key[1..]);
      DropWhitespaceAppend(head, SpaceBeforeCapitals(key[1..]));
      assert key == [key[0]] + key[1..];
      DropWhitespaceAppend([key[0]], key[1..]);
      if IsAsciiUpper(key[0]) {
        assert head == [' '] + [key[0]];
        DropWhitespaceAppend([' '], [key[0]]);
      }
    }
  }

  /** The label differs from its key only in white space. */
  lemma DocLabelKeepsKey(key: string)
    ensures DropWhitespace(DocLabel(key)) == DropWhitespace(key)
  {
    TrimKeepsNonWhitespace(SpaceBeforeCapitals(key));
    SpaceBeforeCapitalsOnlyAddsSpaces(key);
  }

  /** The paths a value resolves to: `NoPaths` is the source's `null`. */
  datatype Cleaned = NoPaths | OnePath(path: string) | Paths(paths: seq<string>)

  /** `raw.map((p) => p.replace(/\\/g, "/"))` */
  function NormalizePaths(items: seq<string>): (r: seq<string>)
    ensures |r| == |items|
    ensures forall i :: 0 <= i < |items| ==> r[i] == NormalizePath(items[i])
  {
    if items == [] then [] else [NormalizePath(items[0])] + NormalizePaths(items[1..])
  }

  /** `clean.map(toFileObject)` */
  function FileObjects(paths: seq<string>): (r: seq<FileRef>)
    ensures |r| == |paths|
    ensures forall i :: 0 <= i < |paths| ==> r[i] == ToFileObject(paths[i])
  {
    if paths == [] then [] else [ToFileObject(paths[0])] + FileObjects(paths[1..])
  }

  /**
   * The `clean` step. A truthy value that is neither a string nor an array has
   * no `replace` method, so the builder throws a TypeError: `None`.
   */
  function Clean(raw: RawValue): Option<Cleaned> {
    if !Truthy(raw) then Some(NoPaths)
    else match raw
      case List(items) => Some(Paths(NormalizePaths(items)))
      case Text(s) => Some(OnePath(NormalizePath(s)))
      case _ => None
  }

  /** The `files` field for a cleaned value. */
  function FilesOf(clean: Cleaned): seq<FileRef> {
    match clean
    case NoPaths => []
    case OnePath(p) => [ToFileObject(p)]
    case Paths(ps) => FileObjects(ps)
  }

  /** The `is_present` field. */
  predicate IsPresent(raw: RawValue) {
    if raw.List? then |raw.items| > 0 else Truthy(raw)
  }

  /** One summary entry; `None` when the value makes the builder throw. */
  function BuildEntry(key: string, raw: RawValue): (r: Option<DocEntry>)
    ensures r.None? <==> raw.Other? && raw.truthy
  {
    match Clean(raw)
    case None => None
    case Some(clean) => Some(DocEntry(key, IsPresent(raw), FilesOf(clean)))
  }

  /** Number of files a value lists: one per array element, one for a non-empty string. */
  function FileCount(raw: RawValue): nat {
    match raw
    case List(items) => |items|
    case Text(s) => if s == "" then 0 else 1
    case _ => 0
  }

  /** Presence, files and URLs of one entry, in terms of the raw value. */
  lemma BuildEntryMeaning(key: string, raw: RawValue)
    requires !(raw.Other? && raw.truthy)
    ensures var e := BuildEntry(key, raw).value;
      && e.docKey == key
      && e.docLabel() == DocLabel(key)
      && |e.files| == FileCount(raw)
      && (e.isPresent <==> |e.files| > 0)
      && (e.isPresent <==> (raw.List? && |raw.items| > 0) || (raw.Text? && raw.s != ""))
      && (raw.Text? && raw.s != "" ==> e.files == [FileRef(AfterLastUnderscore(NormalizePath(raw.s)), FileServiceBase + NormalizePath(raw.s))])
      && (raw.List? ==> forall i :: 0 <= i < |raw.items| ==>
            e.files[i] == FileRef(AfterLastUnderscore(NormalizePath(raw.items[i])), FileServiceBase + NormalizePath(raw.items[i])))
  {
    var clean := Clean(raw).value;
    assert BuildEntry(key, raw) == Some(DocEntry(key, IsPresent(raw), FilesOf(clean)));
    match raw
    case Missing =>
      assert clean == NoPaths;
    case Other(_) =>
      assert clean == NoPaths;
    case Text(s) =>
      if s == "" {
        assert clean == NoPaths;
      } else {
        assert clean == OnePath(NormalizePath(s));
      }
    case List(items) =>
      assert clean == Paths(NormalizePaths(items));
  }

  /** `keys.map(...)` over `pf`; `None` as soon as one entry throws. */
  function BuildFrom(keys: seq<string>, pf: PendingFiles): (r: Option<seq<DocEntry>>)
    ensures r.Some? ==> |r.value| == |keys|
    ensures r.Some? ==> forall i :: 0 <= i < |keys| ==> Some(r.value[i]) == BuildEntry(keys[i], Lookup(pf, keys[i]))
  {
    if keys == [] then Some([])
    else
      var head := BuildEntry(keys[0], Lookup(pf, keys[0]));
      var rest := BuildFrom(keys[1..], pf);
      if head.Some? && rest.Some? then Some([head.value] + rest.value) else None
  }

  /** The whole map throws exactly when one of its entries does. */
  lemma {:induction false} BuildFromThrows(keys: seq<string>, pf: PendingFiles)
    ensures BuildFrom(keys, pf).None? <==> exists i :: 0 <= i < |keys| && BuildEntry(keys[i], Lookup(pf, keys[i])).None?
  {
    if keys != [] {
      BuildFromThrows(keys[1..], pf);
      if BuildFrom(keys[1..], pf).None? {
        var i :| 0 <= i < |keys[1..]| && BuildEntry(keys[1..][i], Lookup(pf, keys[1..][i])).None?;
        assert keys[1..][i] == keys[i + 1];
      }
      forall i | 1 <= i < |keys| ensures keys[i] == keys[1..][i - 1] { }
    }
  }

  /** `buildDocumentSummary(documents)` */
  function BuildDocumentSummary(documents: Option<PendingFiles>): Option<seq<DocEntry>> {
    BuildFrom(RequiredDocs, PendingFilesOf(documents))
  }

  /** A value under some required key makes the builder throw. */
  predicate Throws(pf: PendingFiles) {
    exists k :: k in RequiredDocs && Lookup(pf, k).Other? && Lookup(pf, k).truthy
  }

  /**
   * The summary has exactly one entry per required key, in declared order, and
   * exists unless a required key holds a truthy non-string, non-array value.
   */
  lemma SummaryShape(documents: Option<PendingFiles>)
    ensures var pf := PendingFilesOf(documents);
      var r := BuildDocumentSummary(documents);
      && (r.Some? <==> !Throws(pf))
      && (r.Some? ==> |r.value| == 11 && forall i :: 0 <= i < 11 ==> r.value[i].docKey == RequiredDocs[i])
  {
    BuildFromShape(RequiredDocs, PendingFilesOf(documents));
  }

  /** `BuildFrom` over any key list: it fails iff some listed value throws, and keeps the keys in order. */
  lemma BuildFromShape(keys: seq<string>, pf: PendingFiles)
    ensures BuildFrom(keys, pf).Some? <==> !exists k :: k in keys && Lookup(pf, k).Other? && Lookup(pf, k).truthy
    ensures BuildFrom(keys, pf).Some? ==> forall i :: 0 <= i < |keys| ==> BuildFrom(keys, pf).value[i].docKey == keys[i]
  {
    BuildFromThrows(keys, pf);
    if exists k :: k in keys && Lookup(pf, k).Other? && Lookup(pf, k).truthy {
      var k :| k in keys && Lookup(pf, k).Other? && Lookup(pf, k).truthy;
      var i :| 0 <= i < |keys| && keys[i] == k;
      assert BuildEntry(keys[i], Lookup(pf, keys[i])).None?;
    } else {
      forall i | 0 <= i < |keys| ensures BuildEntry(keys[i], Lookup(pf, keys[i])).Some? {
        assert keys[i] in keys;
      }
    }
    if BuildFrom(keys, pf).Some? {
      forall i | 0 <= i < |keys| ensures BuildFrom(keys, pf).value[i].docKey == keys[i] {
        BuildEntryMeaning(keys[i], Lookup(pf, keys[i]));
      }
    }
  }

  /** Keys outside the required list never affect the summary. */
  lemma {:induction false} OnlyListedKeysMatter(keys: seq<string>, pf1: PendingFiles, pf2: PendingFiles)
    requires forall k :: k in keys ==> Lookup(pf1, k) == Lookup(pf2, k)
    ensures BuildFrom(keys, pf1) == BuildFrom(keys, pf2)
  {
    if keys != [] {
      assert keys[0] in keys;
      OnlyListedKeysMatter(keys[1..], pf1, pf2);
    }
  }

  /** An absent documents object builds the same summary as an empty map: eleven absent entries. */
  lemma AbsentDocumentsAreEmpty()
    ensures BuildDocumentSummary(None) == BuildDocumentSummary(Some(map[]))
    ensures var r := BuildDocumentSummary(None);
      r.Some? && |r.value| == 11 && forall i :: 0 <= i < 11 ==> !r.value[i].isPresent && r.value[i].files == []
  {
    SummaryShape(None);
  }

  // ----- status classification -----

  datatype Status = Pending | Queued | Completed | Discrepancy

  /** The status as the string the pages display and compare. */
  function StatusName(s: Status): (name: string)
    ensures name != ""
  {
    match s
    case Pending => "PENDING"
    case Queued => "QUEUED"
    case Completed => "COMPLETED"
    case Discrepancy => "DISCREPANCY"
  }

  /** Position along PENDING < QUEUED < COMPLETED. */
  function Rank(s: Status): nat {
    match s
    case Pending => 0
    case Queued => 1
    case Completed => 2
    case Discrepancy => 3
  }

  /** `docs.filter((d) => d.is_present).length` */
  function PresentCount(docs: seq<DocEntry>): (n: nat)
    ensures n <= |docs|
  {
    if docs == [] then 0 else (if docs[0].isPresent then 1 else 0) + PresentCount(docs[1..])
  }

  lemma {:induction false} PresentCountExtremes(docs: seq<DocEntry>)
    ensures PresentCount(docs) == 0 <==> forall i :: 0 <= i < |docs| ==> !docs[i].isPresent
    ensures PresentCount(docs) == |docs| <==> forall i :: 0 <= i < |docs| ==> docs[i].isPresent
  {
    if docs != [] {
      PresentCountExtremes(docs[1..]);
      assert forall i :: 1 <= i < |docs| ==> docs[i] == docs[1..][i - 1];
    }
  }

  /** `computeStatusFromDocs(docs)` */
  function ComputeStatusFromDocs(docs: seq<DocEntry>): (r: Status)
    ensures r != Discrepancy
    ensures r == Pending <==> forall i :: 0 <= i < |docs| ==> !docs[i].isPresent
    ensures r == Completed <==> |docs| > 0 && forall i :: 0 <= i < |docs| ==> docs[i].isPresent
    ensures r == Queued <==> (exists i :: 0 <= i < |docs| && docs[i].isPresent) && (exists i :: 0 <= i < |docs| && !docs[i].isPresent)
  {
    PresentCountExtremes(docs);
    var submitted := PresentCount(docs);
    if submitted == 0 then Pending
    else if submitted < |docs| then Queued
    else Completed
  }

  /** Entry-wise: every entry present in `d1` is present in `d2`. */
  predicate PresenceIncluded(d1: seq<DocEntry>, d2: seq<DocEntry>) {
    |d1| == |d2| && forall i :: 0 <= i < |d1| ==> d1[i].isPresent ==> d2[i].isPresent
  }

  lemma {:induction false} PresentCountMonotone(d1: seq<DocEntry>, d2: seq<DocEntry>)
    requires PresenceIncluded(d1, d2)
    ensures PresentCount(d1) <= PresentCount(d2)
  {
    if d1 != [] {
      assert PresenceIncluded(d1[1..], d2[1..]) by {
        forall i | 0 <= i < |d1[1..]| ensures d1[1..][i].isPresent ==> d2[1..][i].isPresent {
          assert d1[1..][i] == d1[i + 1] && d2[1..][i] == d2[i + 1];
        }
      }
      PresentCountMonotone(d1[1..], d2[1..]);
    }
  }

  /** The status depends on the summary only through its length and its present count. */
  lemma StatusOfCount(d1: seq<DocEntry>, d2: seq<DocEntry>)
    requires |d1| == |d2| && PresentCount(d1) == PresentCount(d2)
    ensures ComputeStatusFromDocs(d1) == ComputeStatusFromDocs(d2)
  {
  }

  /**
   * Classification is monotone in the present count: of two summaries of the
   * same length, the one with more present documents never has the lower status.
   */
  lemma CountMonotone(d1: seq<DocEntry>, d2: seq<DocEntry>)
    requires |d1| == |d2| && PresentCount(d1) <= PresentCount(d2)
    ensures Rank(ComputeStatusFromDocs(d1)) <= Rank(ComputeStatusFromDocs(d2))
  {
  }

  /** Entry-wise: marking more documents present never lowers the status. */
  lemma ClassificationMonotone(d1: seq<DocEntry>, d2: seq<DocEntry>)
    requires PresenceIncluded(d1, d2)
    ensures Rank(ComputeStatusFromDocs(d1)) <= Rank(ComputeStatusFromDocs(d2))
  {
    PresentCountMonotone(d1, d2);
    CountMonotone(d1, d2);
  }

  /**
   * The normalisation step's status choice: an upstream "DISCREPANCY" is kept,
   * every other upstream value (absent included) is replaced by the computed status.
   */
  function FinalStatus(upstream: Option<string>, docs: seq<DocEntry>): (r: Status)
    ensures r == Discrepancy <==> upstream == Some("DISCREPANCY")
    ensures r != Discrepancy ==> r == ComputeStatusFromDocs(docs)
  {
    if upstream != Some("DISCREPANCY") then ComputeStatusFromDocs(docs) else Discrepancy
  }
}
