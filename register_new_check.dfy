/**
 * The background-check registration form: field change handlers, the file
 * validator, the deterministic upload plan, and the submission state machine
 * (0 idle, 1 loading, 2 success, 3 error) driven by the server's replies.
 */
module RegisterNewCheck {
  import opened Wrappers
  import opened Strings

  /** A browser `File`: its name and its size in bytes. */
  datatype File = File(name: string, size: int)

  const MaxFileSize: int := 5 * 1024 * 1024

  const TextKeys: seq<string> := [
    "candidateName", "city", "localAddress", "permanentAddress",
    "phoneNumber", "email", "employer", "previousHrEmail"
  ]

  /** Single-file inputs, in upload order. */
  const SingleKeys: seq<string> := [
    "tenthMarksheet", "twelfthMarksheet", "bachelorsDegree",
    "bachelorsResult", "mastersDegree", "mastersResult",
    "bankDetails", "resume", "identityProof",
    "policeVerification", "aadhaarOrDomicile"
  ]

  /** Multi-file inputs, in upload order. */
  const MultiKeys: seq<string> := ["relievingLetter", "salarySlips", "otherCertificates"]

  /** The form: text fields, single-file fields (a file or `null`), multi-file fields (arrays). */
  datatype FormData = FormData(text: map<string, string>, single: map<string, Option<File>>, multi: map<string, seq<File>>)

  /** `initialState`: empty texts, no files. */
  function InitialState(): (f: FormData)
    ensures forall k :: k in TextKeys ==> k in f.text && f.text[k] == ""
    ensures forall k :: k in SingleKeys ==> k in f.single && f.single[k] == None
    ensures forall k :: k in MultiKeys ==> k in f.multi && f.multi[k] == []
  {
    FormData(
      map k | k in TextKeys :: "",
      map k | k in SingleKeys :: None,
      map k | k in MultiKeys :: [])
  }

  function TextOf(f: FormData, key: string): string {
    if key in f.text then f.text[key] else ""
  }

  function SingleOf(f: FormData, key: string): Option<File> {
    if key in f.single then f.single[key] else None
  }

  /** `formData[key] || []` */
  function MultiOf(f: FormData, key: string): seq<File> {
    if key in f.multi then f.multi[key] else []
  }

  const MissingFieldsMessage: string := "Mandatory text fields are missing."

  /** Only the previous HR email, the candidate name and the email are mandatory. */
  predicate MandatoryFieldsPresent(f: FormData) {
    TextOf(f, "previousHrEmail") != "" && TextOf(f, "candidateName") != "" && TextOf(f, "email") != ""
  }

  /** `isPdfOrDocx(f)`: a present file named *.pdf or *.docx (any case) of at most 5 MB. */
  predicate IsPdfOrDocx(f: Option<File>) {
    f.Some?
    && (EndsWith(ToLower(f.value.name), ".pdf") || EndsWith(ToLower(f.value.name), ".docx"))
    && f.value.size <= MaxFileSize
  }

  /** The validator ignores the letter case of the file name. */
  lemma IsPdfOrDocxIgnoresCase(name: string, size: int)
    ensures IsPdfOrDocx(Some(File(ToLower(name), size))) == IsPdfOrDocx(Some(File(name, size)))
  {
    ToLowerIdempotent(name);
  }

  /** Upper-case extensions pass; the 5 MB cap is inclusive; ".doc" is refused. */
  lemma IsPdfOrDocxExamples()
    ensures !IsPdfOrDocx(None)
    ensures IsPdfOrDocx(Some(File("a.PDF", MaxFileSize)))
    ensures !IsPdfOrDocx(Some(File("a.PDF", MaxFileSize + 1)))
    ensures !IsPdfOrDocx(Some(File("a.doc", 0)))
  {
    var upper := ToLower("a.PDF");
    assert upper == "a.pdf" by {
      assert |upper| == 5;
      assert upper[2] == 'p' && upper[3] == 'd' && upper[4] == 'f';
    }
    var doc := ToLower("a.doc");
    assert doc == "a.doc";
    assert !EndsWith(doc, ".docx") by { assert doc[0] != ".docx"[0]; }
  }

  // ----- the upload plan -----

  datatype Request =
    | SendMetadata
    | UploadSingle(fieldName: string, file: File)
    | UploadMulti(fieldName: string, index: nat, file: File)

  /** The server's answer to one request: ok, a non-ok status, or a thrown error with its message. */
  datatype Reply = Accepted | Rejected | Thrown(message: string)

  function SingleStep(f: FormData, key: string): seq<Request> {
    var file := SingleOf(f, key);
    if file.Some? && IsPdfOrDocx(file) then [UploadSingle(key, file.value)] else []
  }

  /** The single-file loop over `keys`, as the requests it issues. */
  function SinglePlan(f: FormData, keys: seq<string>): seq<Request> {
    if keys == [] then [] else SinglePlan(f, keys[..|keys| - 1]) + SingleStep(f, keys[|keys| - 1])
  }

  /** The inner multi-file loop over one key's files, with each file's index. */
  function FilesPlan(key: string, files: seq<File>): seq<Request> {
    if files == [] then []
    else
      var i := |files| - 1;
      FilesPlan(key, files[..i]) + FileStep(key, i, files[i])
  }

  /** One pass of the inner multi-file loop: the upload of file number `i` if it is valid. */
  function FileStep(key: string, i: nat, file: File): seq<Request> {
    if IsPdfOrDocx(Some(file)) then [UploadMulti(key, i, file)] else []
  }

  function MultiPlan(f: FormData, keys: seq<string>): seq<Request> {
    if keys == [] then [] else MultiPlan(f, keys[..|keys| - 1]) + FilesPlan(keys[|keys| - 1], MultiOf(f, keys[|keys| - 1]))
  }

  /** Single keys in declared order, then multi keys in declared order with ascending indices. */
  function UploadPlan(f: FormData): seq<Request> {
    SinglePlan(f, SingleKeys) + MultiPlan(f, MultiKeys)
  }

  /** Every request of a submission that passes validation, in order. */
  function Requests(f: FormData): seq<Request> {
    [SendMetadata] + UploadPlan(f)
  }

  predicate IsPrefix<T(==)>(a: seq<T>, b: seq<T>) {
    |a| <= |b| && b[..|a|] == a
  }

  lemma PrefixOfAppend<T>(a: seq<T>, b: seq<T>)
    ensures IsPrefix(a, a + b)
  {
    assert (a + b)[..|a|] == a;
  }

  lemma PrefixUnderHead<T>(h: seq<T>, a: seq<T>, b: seq<T>)
    requires IsPrefix(a, b)
    ensures IsPrefix(h + a, h + b)
  {
    assert (h + b)[..|h + a|] == h + b[..|a|];
  }

  lemma PrefixTransitive<T>(a: seq<T>, b: seq<T>, c: seq<T>)
    requires IsPrefix(a, b) && IsPrefix(b, c)
    ensures IsPrefix(a, c)
  {
    assert c[..|a|] == c[..|b|][..|a|];
  }

  /** One more key extends the single-file plan by that key's step. */
  lemma SinglePlanSnoc(f: FormData, keys: seq<string>, i: nat)
    requires i < |keys|
    ensures SinglePlan(f, keys[..i + 1]) == SinglePlan(f, keys[..i]) + SingleStep(f, keys[i])
  {
    assert keys[..i + 1][..i] == keys[..i];
  }

  /** One more file extends one field's plan by that file's upload, if it is valid. */
  lemma FilesPlanSnoc(key: string, files: seq<File>, i: nat)
    requires i < |files|
    ensures FilesPlan(key, files[..i + 1]) == FilesPlan(key, files[..i]) + FileStep(key, i, files[i])
  {
    assert files[..i + 1][..i] == files[..i];
  }

  /** One more key extends the multi-file plan by all of that key's uploads. */
  lemma MultiPlanSnoc(f: FormData, keys: seq<string>, i: nat)
    requires i < |keys|
    ensures MultiPlan(f, keys[..i + 1]) == MultiPlan(f, keys[..i]) + FilesPlan(keys[i], MultiOf(f, keys[i]))
  {
    assert keys[..i + 1][..i] == keys[..i];
  }

  lemma {:induction false} SinglePlanPrefix(f: FormData, keys: seq<string>, j: nat)
    requires j <= |keys|
    ensures IsPrefix(SinglePlan(f, keys[..j]), SinglePlan(f, keys))
    decreases |keys| - j
  {
    if j < |keys| {
      SinglePlanPrefix(f, keys, j + 1);
      SinglePlanSnoc(f, keys, j);
      PrefixOfAppend(SinglePlan(f, keys[..j]), SingleStep(f, keys[j]));
      PrefixTransitive(SinglePlan(f, keys[..j]), SinglePlan(f, keys[..j + 1]), SinglePlan(f, keys));
    } else {
      assert keys[..j] == keys;
    }
  }

  lemma {:induction false} FilesPlanPrefix(key: string, files: seq<File>, j: nat)
    requires j <= |files|
    ensures IsPrefix(FilesPlan(key, files[..j]), FilesPlan(key, files))
    decreases |files| - j
  {
    if j < |files| {
      FilesPlanPrefix(key, files, j + 1);
      FilesPlanSnoc(key, files, j);
      PrefixOfAppend(FilesPlan(key, files[..j]), FileStep(key, j, files[j]));
      PrefixTransitive(FilesPlan(key, files[..j]), FilesPlan(key, files[..j + 1]), FilesPlan(key, files));
    } else {
      assert files[..j] == files;
    }
  }

  lemma {:induction false} MultiPlanPrefix(f: FormData, keys: seq<string>, j: nat)
    requires j <= |keys|
    ensures IsPrefix(MultiPlan(f, keys[..j]), MultiPlan(f, keys))
    decreases |keys| - j
  {
    if j < |keys| {
      MultiPlanPrefix(f, keys, j + 1);
      MultiPlanSnoc(f, keys, j);
      PrefixOfAppend(MultiPlan(f, keys[..j]), FilesPlan(keys[j], MultiOf(f, keys[j])));
      PrefixTransitive(MultiPlan(f, keys[..j]), MultiPlan(f, keys[..j + 1]), MultiPlan(f, keys));
    } else {
      assert keys[..j] == keys;
    }
  }

  /** Soundness of the single-file loop: it uploads only present, valid files of its keys. */
  lemma {:induction false} SinglePlanSound(f: FormData, keys: seq<string>)
    ensures forall r :: r in SinglePlan(f, keys) ==>
      r.UploadSingle? && r.fieldName in keys && SingleOf(f, r.fieldName) == Some(r.file) && IsPdfOrDocx(Some(r.file))
  {
    if keys != [] {
      SinglePlanSound(f, keys[..|keys| - 1]);
      assert forall k :: k in keys[..|keys| - 1] ==> k in keys;
    }
  }

  /** Completeness of the single-file loop: every present, valid file of its keys is uploaded. */
  lemma {:induction false} SinglePlanComplete(f: FormData, keys: seq<string>, key: string)
    requires key in keys && IsPdfOrDocx(SingleOf(f, key))
    ensures UploadSingle(key, SingleOf(f, key).value) in SinglePlan(f, keys)
  {
    var n := |keys| - 1;
    if keys[n] != key {
      assert key in keys[..n] by {
        var i :| 0 <= i < |keys| && keys[i] == key;
        assert keys[..n][i] == key;
      }
      SinglePlanComplete(f, keys[..n], key);
    }
  }

  /** The inner loop uploads exactly the valid files, tagged with their own index, in ascending order. */
  lemma {:induction false} FilesPlanMeaning(key: string, files: seq<File>)
    ensures forall r :: r in FilesPlan(key, files) ==>
      r.UploadMulti? && r.fieldName == key && r.index < |files| && files[r.index] == r.file && IsPdfOrDocx(Some(r.file))
    ensures forall i :: 0 <= i < |files| && IsPdfOrDocx(Some(files[i])) ==> UploadMulti(key, i, files[i]) in FilesPlan(key, files)
    ensures forall a, b :: 0 <= a < b < |FilesPlan(key, files)| ==> FilesPlan(key, files)[a].index < FilesPlan(key, files)[b].index
  {
    if files != [] {
      var n := |files| - 1;
      FilesPlanMeaning(key, files[..n]);
      assert forall i :: 0 <= i < n ==> files[..n][i] == files[i];
    }
  }

  /** The multi-file loops upload only valid files of the multi keys, at their own index. */
  lemma {:induction false} MultiPlanSound(f: FormData, keys: seq<string>)
    ensures forall r :: r in MultiPlan(f, keys) ==>
      r.UploadMulti? && r.fieldName in keys && r.index < |MultiOf(f, r.fieldName)|
      && MultiOf(f, r.fieldName)[r.index] == r.file && IsPdfOrDocx(Some(r.file))
  {
    if keys != [] {
      var n := |keys| - 1;
      MultiPlanSound(f, keys[..n]);
      FilesPlanMeaning(keys[n], MultiOf(f, keys[n]));
      assert forall k :: k in keys[..n] ==> k in keys;
    }
  }

  lemma {:induction false} MultiPlanComplete(f: FormData, keys: seq<string>, key: string, i: nat)
    requires key in keys && i < |MultiOf(f, key)| && IsPdfOrDocx(Some(MultiOf(f, key)[i]))
    ensures UploadMulti(key, i, MultiOf(f, key)[i]) in MultiPlan(f, keys)
  {
    var n := |keys| - 1;
    if keys[n] == key {
      FilesPlanMeaning(key, MultiOf(f, key));
    } else {
      assert key in keys[..n] by {
        var j :| 0 <= j < |keys| && keys[j] == key;
        assert keys[..n][j] == key;
      }
      MultiPlanComplete(f, keys[..n], key, i);
    }
  }

  /** Over any key lists the plan uploads only valid present files of those keys, and never the metadata. */
  lemma PlanSound(f: FormData, singleKeys: seq<string>, multiKeys: seq<string>)
    ensures forall r :: r in SinglePlan(f, singleKeys) + MultiPlan(f, multiKeys) ==> r != SendMetadata
    ensures forall r :: r in SinglePlan(f, singleKeys) + MultiPlan(f, multiKeys) && r.UploadSingle? ==>
      r.fieldName in singleKeys && SingleOf(f, r.fieldName) == Some(r.file) && IsPdfOrDocx(Some(r.file))
    ensures forall r :: r in SinglePlan(f, singleKeys) + MultiPlan(f, multiKeys) && r.UploadMulti? ==>
      r.fieldName in multiKeys && r.index < |MultiOf(f, r.fieldName)|
      && MultiOf(f, r.fieldName)[r.index] == r.file && IsPdfOrDocx(Some(r.file))
  {
    SinglePlanSound(f, singleKeys);
    MultiPlanSound(f, multiKeys);
  }

  /** Over any key lists the plan uploads every valid present file of those keys. */
  lemma PlanComplete(f: FormData, singleKeys: seq<string>, multiKeys: seq<string>)
    ensures forall k :: k in singleKeys && IsPdfOrDocx(SingleOf(f, k)) ==>
      UploadSingle(k, SingleOf(f, k).value) in SinglePlan(f, singleKeys) + MultiPlan(f, multiKeys)
    ensures forall k, i :: k in multiKeys && 0 <= i < |MultiOf(f, k)| && IsPdfOrDocx(Some(MultiOf(f, k)[i])) ==>
      UploadMulti(k, i, MultiOf(f, k)[i]) in SinglePlan(f, singleKeys) + MultiPlan(f, multiKeys)
  {
    forall k | k in singleKeys && IsPdfOrDocx(SingleOf(f, k))
      ensures UploadSingle(k, SingleOf(f, k).value) in SinglePlan(f, singleKeys) + MultiPlan(f, multiKeys)
    {
      SinglePlanComplete(f, singleKeys, k);
    }
    forall k, i | k in multiKeys && 0 <= i < |MultiOf(f, k)| && IsPdfOrDocx(Some(MultiOf(f, k)[i]))
      ensures UploadMulti(k, i, MultiOf(f, k)[i]) in SinglePlan(f, singleKeys) + MultiPlan(f, multiKeys)
    {
      MultiPlanComplete(f, multiKeys, k, i);
    }
  }

  /** Once a multi-file upload appears in `plan`, only multi-file uploads follow it. */
  predicate MultisLast(plan: seq<Request>) {
    forall a, b :: 0 <= a < b < |plan| && plan[a].UploadMulti? ==> plan[b].UploadMulti?
  }

  /** Over any key lists, once a multi-file upload has been issued no single-file upload follows. */
  lemma PlanOrder(f: FormData, singleKeys: seq<string>, multiKeys: seq<string>)
    ensures MultisLast(SinglePlan(f, singleKeys) + MultiPlan(f, multiKeys))
  {
    var sp := SinglePlan(f, singleKeys);
    var mp := MultiPlan(f, multiKeys);
    var plan := sp + mp;
    SinglePlanSound(f, singleKeys);
    MultiPlanSound(f, multiKeys);
    assert forall i :: 0 <= i < |sp| ==> sp[i] in sp;
    assert forall i :: 0 <= i < |mp| ==> mp[i] in mp;
    forall a, b | 0 <= a < b < |plan| && plan[a].UploadMulti? ensures plan[b].UploadMulti? {
      assert plan[b] == mp[b - |sp|];
    }
  }

  /** No key is listed twice. */
  predicate Distinct(keys: seq<string>) {
    forall i, j :: 0 <= i < j < |keys| ==> keys[i] != keys[j]
  }

  /** Single uploads follow their keys' order: one for `keys[i]` comes before one for `keys[j]` only if i < j. */
  predicate SinglesInKeyOrder(plan: seq<Request>, keys: seq<string>) {
    forall p, q, i, j ::
      0 <= p < q < |plan| && 0 <= i < |keys| && 0 <= j < |keys|
      && plan[p].UploadSingle? && plan[q].UploadSingle? && plan[p].fieldName == keys[i] && plan[q].fieldName == keys[j]
      ==> i < j
  }

  /** Multi uploads follow their keys' order, and within one key the files' order. */
  predicate MultisInKeyOrder(plan: seq<Request>, keys: seq<string>) {
    forall p, q, i, j ::
      0 <= p < q < |plan| && 0 <= i < |keys| && 0 <= j < |keys|
      && plan[p].UploadMulti? && plan[q].UploadMulti? && plan[p].fieldName == keys[i] && plan[q].fieldName == keys[j]
      ==> i < j || (i == j && plan[p].index < plan[q].index)
  }

  /** No request appears twice. */
  predicate NoRepeats(plan: seq<Request>) {
    forall p, q :: 0 <= p < q < |plan| ==> plan[p] != plan[q]
  }

  lemma DistinctPrefix(keys: seq<string>, n: nat)
    requires Distinct(keys) && n <= |keys|
    ensures Distinct(keys[..n])
  {
    assert forall i :: 0 <= i < n ==> keys[..n][i] == keys[i];
  }

  /** The single-file loop issues its uploads in the order of its (distinct) keys. */
  lemma {:induction false} SinglePlanOrdered(f: FormData, keys: seq<string>)
    requires Distinct(keys)
    ensures SinglesInKeyOrder(SinglePlan(f, keys), keys)
  {
    if keys != [] {
      var n := |keys| - 1;
      var init := keys[..n];
      DistinctPrefix(keys, n);
      SinglePlanOrdered(f, init);
      SinglePlanSound(f, init);
      var pre := SinglePlan(f, init);
      var step := SingleStep(f, keys[n]);
      var plan := SinglePlan(f, keys);
      assert plan == pre + step;
      forall p, q, i, j |
        0 <= p < q < |plan| && 0 <= i < |keys| && 0 <= j < |keys|
        && plan[p].UploadSingle? && plan[q].UploadSingle? && plan[p].fieldName == keys[i] && plan[q].fieldName == keys[j]
        ensures i < j
      {
        assert plan[p] == pre[p] && pre[p] in pre;
        var k :| 0 <= k < n && init[k] == pre[p].fieldName;
        assert keys[k] == keys[i];
        if q < |pre| {
          assert plan[q] == pre[q] && pre[q] in pre;
          var l :| 0 <= l < n && init[l] == pre[q].fieldName;
          assert keys[l] == keys[j];
          assert init[k] == pre[p].fieldName && init[l] == pre[q].fieldName;
        } else {
          assert plan[q] == step[0];
          assert keys[n] == keys[j];
        }
      }
    }
  }

  /** One more key's uploads, in ascending index order, appended after those of the earlier keys. */
  lemma MultiOrderedSnoc(pre: seq<Request>, last: seq<Request>, keys: seq<string>)
    requires keys != [] && Distinct(keys)
    requires forall r :: r in pre ==> r.UploadMulti? && r.fieldName in keys[..|keys| - 1]
    requires forall r :: r in last ==> r.UploadMulti? && r.fieldName == keys[|keys| - 1]
    requires MultisInKeyOrder(pre, keys[..|keys| - 1])
    requires forall a, b :: 0 <= a < b < |last| ==> last[a].index < last[b].index
    ensures MultisInKeyOrder(pre + last, keys)
  {
    var n := |keys| - 1;
    var init := keys[..n];
    var plan := pre + last;
    forall p, q, i, j |
      0 <= p < q < |plan| && 0 <= i < |keys| && 0 <= j < |keys|
      && plan[p].UploadMulti? && plan[q].UploadMulti? && plan[p].fieldName == keys[i] && plan[q].fieldName == keys[j]
      ensures i < j || (i == j && plan[p].index < plan[q].index)
    {
      if q < |pre| {
        assert plan[p] == pre[p] && pre[p] in pre;
        assert plan[q] == pre[q] && pre[q] in pre;
        var k :| 0 <= k < n && init[k] == pre[p].fieldName;
        var l :| 0 <= l < n && init[l] == pre[q].fieldName;
        assert keys[k] == keys[i] && keys[l] == keys[j];
      } else if p < |pre| {
        assert plan[p] == pre[p] && pre[p] in pre;
        var k :| 0 <= k < n && init[k] == pre[p].fieldName;
        assert keys[k] == keys[i];
        assert plan[q] == last[q - |pre|] && last[q - |pre|] in last;
        assert keys[n] == keys[j];
      } else {
        assert plan[p] == last[p - |pre|] && last[p - |pre|] in last;
        assert plan[q] == last[q - |pre|] && last[q - |pre|] in last;
        assert keys[n] == keys[i] && keys[n] == keys[j];
      }
    }
  }

  /** The multi-file loops issue their uploads key by key in the order of the (distinct) keys, files in index order. */
  lemma {:induction false} MultiPlanOrdered(f: FormData, keys: seq<string>)
    requires Distinct(keys)
    ensures MultisInKeyOrder(MultiPlan(f, keys), keys)
  {
    if keys != [] {
      var n := |keys| - 1;
      DistinctPrefix(keys, n);
      MultiPlanOrdered(f, keys[..n]);
      MultiPlanSound(f, keys[..n]);
      FilesPlanMeaning(keys[n], MultiOf(f, keys[n]));
      assert MultiPlan(f, keys) == MultiPlan(f, keys[..n]) + FilesPlan(keys[n], MultiOf(f, keys[n]));
      MultiOrderedSnoc(MultiPlan(f, keys[..n]), FilesPlan(keys[n], MultiOf(f, keys[n])), keys);
    }
  }

  /** Appending only multi-file uploads after only single-file uploads keeps both orders. */
  lemma OrderedParts(sp: seq<Request>, mp: seq<Request>, singleKeys: seq<string>, multiKeys: seq<string>)
    requires forall r :: r in sp ==> r.UploadSingle?
    requires forall r :: r in mp ==> r.UploadMulti?
    requires SinglesInKeyOrder(sp, singleKeys) && MultisInKeyOrder(mp, multiKeys)
    ensures SinglesInKeyOrder(sp + mp, singleKeys) && MultisInKeyOrder(sp + mp, multiKeys)
  {
    var plan := sp + mp;
    forall p | |sp| <= p < |plan| ensures plan[p] == mp[p - |sp|] && plan[p].UploadMulti? {
      assert mp[p - |sp|] in mp;
    }
    forall p | 0 <= p < |sp| ensures plan[p] == sp[p] && plan[p].UploadSingle? {
      assert sp[p] in sp;
    }
  }

  /** A plan ordered by distinct keys in both parts issues no request twice. */
  lemma OrderedNoRepeats(plan: seq<Request>, singleKeys: seq<string>, multiKeys: seq<string>)
    requires forall r :: r in plan && r.UploadSingle? ==> r.fieldName in singleKeys
    requires forall r :: r in plan && r.UploadMulti? ==> r.fieldName in multiKeys
    requires forall r :: r in plan ==> r != SendMetadata
    requires SinglesInKeyOrder(plan, singleKeys) && MultisInKeyOrder(plan, multiKeys)
    ensures NoRepeats(plan)
  {
    forall p, q | 0 <= p < q < |plan| ensures plan[p] != plan[q] {
      assert plan[p] in plan;
      if plan[p].UploadSingle? {
        var i :| 0 <= i < |singleKeys| && singleKeys[i] == plan[p].fieldName;
        assert plan[q].UploadSingle? && plan[q].fieldName == singleKeys[i] ==> i < i;
      } else {
        var i :| 0 <= i < |multiKeys| && multiKeys[i] == plan[p].fieldName;
        assert plan[q].UploadMulti? && plan[q].fieldName == multiKeys[i] ==> plan[p].index < plan[q].index;
      }
    }
  }

  /** Over distinct key lists, the combined plan keeps the declared key order and issues no request twice. */
  lemma PlanInDeclaredOrder(f: FormData, singleKeys: seq<string>, multiKeys: seq<string>)
    requires Distinct(singleKeys) && Distinct(multiKeys)
    ensures SinglesInKeyOrder(SinglePlan(f, singleKeys) + MultiPlan(f, multiKeys), singleKeys)
    ensures MultisInKeyOrder(SinglePlan(f, singleKeys) + MultiPlan(f, multiKeys), multiKeys)
    ensures NoRepeats(SinglePlan(f, singleKeys) + MultiPlan(f, multiKeys))
  {
    var sp := SinglePlan(f, singleKeys);
    var mp := MultiPlan(f, multiKeys);
    SinglePlanOrdered(f, singleKeys);
    MultiPlanOrdered(f, multiKeys);
    SinglePlanSound(f, singleKeys);
    MultiPlanSound(f, multiKeys);
    OrderedParts(sp, mp, singleKeys, multiKeys);
    OrderedNoRepeats(sp + mp, singleKeys, multiKeys);
  }

  /** The declared single-file and multi-file keys are each listed once. */
  lemma DeclaredKeysDistinct()
    ensures Distinct(SingleKeys) && Distinct(MultiKeys)
  {
  }

  /**
   * The upload plan: exactly the present files that pass the validator, single
   * keys before multi keys, invalid files skipped.
   */
  lemma UploadPlanMeaning(f: FormData)
    ensures forall r :: r in UploadPlan(f) ==> r != SendMetadata
    ensures forall r :: r in UploadPlan(f) && r.UploadSingle? ==>
      r.fieldName in SingleKeys && SingleOf(f, r.fieldName) == Some(r.file) && IsPdfOrDocx(Some(r.file))
    ensures forall r :: r in UploadPlan(f) && r.UploadMulti? ==>
      r.fieldName in MultiKeys && r.index < |MultiOf(f, r.fieldName)|
      && MultiOf(f, r.fieldName)[r.index] == r.file && IsPdfOrDocx(Some(r.file))
    ensures forall k :: k in SingleKeys && IsPdfOrDocx(SingleOf(f, k)) ==> UploadSingle(k, SingleOf(f, k).value) in UploadPlan(f)
    ensures forall k, i :: k in MultiKeys && 0 <= i < |MultiOf(f, k)| && IsPdfOrDocx(Some(MultiOf(f, k)[i])) ==>
      UploadMulti(k, i, MultiOf(f, k)[i]) in UploadPlan(f)
    ensures MultisLast(UploadPlan(f))
    ensures SinglesInKeyOrder(UploadPlan(f), SingleKeys) && MultisInKeyOrder(UploadPlan(f), MultiKeys)
    ensures NoRepeats(UploadPlan(f))
  {
    assert UploadPlan(f) == SinglePlan(f, SingleKeys) + MultiPlan(f, MultiKeys);
    PlanSound(f, SingleKeys, MultiKeys);
    PlanComplete(f, SingleKeys, MultiKeys);
    PlanOrder(f, SingleKeys, MultiKeys);
    DeclaredKeysDistinct();
    PlanInDeclaredOrder(f, SingleKeys, MultiKeys);
  }

  /** The message shown when the request `request` fails with `reply`. */
  function FailureMessage(request: Request, reply: Reply): string {
    match reply
    case Thrown(message) => message
    case _ =>
      match request
      case SendMetadata => "Failed to send form data"
      case UploadSingle(key, _) => "Failed to upload " + key
      case UploadMulti(key, i, _) => "Failed to upload " + key + "[" + DecimalString(i) + "]"
  }

  /** Every request numbered below `n` was accepted. */
  predicate AcceptedBefore(replies: nat -> Reply, n: int) {
    forall k: nat :: k < n ==> replies(k) == Accepted
  }

  /**
   * After a stage that was to issue `plan` once `base` had been sent: either
   * all of `plan` went out and was accepted (`ok`), or a prefix of it did and
   * its last request is the first one refused.
   */
  predicate StageOutcome(replies: nat -> Reply, base: seq<Request>, plan: seq<Request>, sent: seq<Request>, ok: bool) {
    && IsPrefix(sent, base + plan)
    && |base| <= |sent|
    && (ok ==> sent == base + plan && AcceptedBefore(replies, |sent|))
    && (!ok ==> |base| < |sent| && AcceptedBefore(replies, |sent| - 1) && replies(|sent| - 1) != Accepted)
  }

  /** A stage stops at its first refused request, part way through its plan. */
  lemma StageRefused(replies: nat -> Reply, base: seq<Request>, partial: seq<Request>, plan: seq<Request>, sent: seq<Request>)
    requires IsPrefix(partial, plan) && partial != []
    requires sent == base + partial
    requires AcceptedBefore(replies, |sent| - 1) && replies(|sent| - 1) != Accepted
    ensures StageOutcome(replies, base, plan, sent, false)
  {
    PrefixUnderHead(base, partial, plan);
  }

  /** A stage that succeeded followed by another stage is one stage over both plans. */
  lemma StageThen(replies: nat -> Reply, base: seq<Request>, p1: seq<Request>, s1: seq<Request>, p2: seq<Request>, s2: seq<Request>, ok: bool)
    requires StageOutcome(replies, base, p1, s1, true)
    requires StageOutcome(replies, s1, p2, s2, ok)
    ensures StageOutcome(replies, base, p1 + p2, s2, ok)
  {
    assert base + p1 + p2 == base + (p1 + p2);
  }

  /** A stage that failed part way through `partial` failed part way through any plan extending it. */
  lemma StageWiden(replies: nat -> Reply, base: seq<Request>, partial: seq<Request>, plan: seq<Request>, sent: seq<Request>)
    requires StageOutcome(replies, base, partial, sent, false)
    requires IsPrefix(partial, plan)
    ensures StageOutcome(replies, base, plan, sent, false)
  {
    PrefixUnderHead(base, partial, plan);
    PrefixTransitive(sent, base + partial, base + plan);
  }

  /** A stage that failed aborts everything planned after it. */
  lemma StageAbort(replies: nat -> Reply, base: seq<Request>, p1: seq<Request>, s1: seq<Request>, p2: seq<Request>)
    requires StageOutcome(replies, base, p1, s1, false)
    ensures StageOutcome(replies, base, p1 + p2, s1, false)
  {
    PrefixOfAppend(p1, p2);
    StageWiden(replies, base, p1, p1 + p2, s1);
  }

  /**
   * One pass of a loop that sends at most one request: when that request is
   * accepted (or there is none) the stage goes on; when it is refused the
   * stage ends there, part way through its plan.
   */
  lemma StageStep(replies: nat -> Reply, base: seq<Request>, partial: seq<Request>, step: seq<Request>,
                  plan: seq<Request>, sent: seq<Request>, after: seq<Request>, accepted: bool)
    requires StageOutcome(replies, base, partial, sent, true)
    requires after == sent + step && |step| <= 1
    requires accepted <==> step == [] || replies(|sent|) == Accepted
    requires IsPrefix(partial + step, plan)
    ensures accepted ==> StageOutcome(replies, base, partial + step, after, true)
    ensures !accepted ==> StageOutcome(replies, base, plan, after, false)
  {
    assert after == base + (partial + step);
    if accepted {
      assert AcceptedBefore(replies, |after|) by {
        forall k: nat | k < |after| ensures replies(k) == Accepted {
          if k < |sent| {
            assert AcceptedBefore(replies, |sent|);
          }
        }
      }
    } else {
      StageRefused(replies, base, partial + step, plan, after);
    }
  }

  lemma SinglesStep(form: FormData, keys: seq<string>, i: nat, replies: nat -> Reply, base: seq<Request>,
                    sent: seq<Request>, after: seq<Request>, accepted: bool)
    requires i < |keys|
    requires StageOutcome(replies, base, SinglePlan(form, keys[..i]), sent, true)
    requires after == sent + SingleStep(form, keys[i])
    requires accepted <==> SingleStep(form, keys[i]) == [] || replies(|sent|) == Accepted
    ensures accepted ==> StageOutcome(replies, base, SinglePlan(form, keys[..i + 1]), after, true)
    ensures !accepted ==> StageOutcome(replies, base, SinglePlan(form, keys), after, false)
  {
    SinglePlanSnoc(form, keys, i);
    SinglePlanPrefix(form, keys, i + 1);
    StageStep(replies, base, SinglePlan(form, keys[..i]), SingleStep(form, keys[i]), SinglePlan(form, keys), sent, after, accepted);
  }

  lemma FilesStep(key: string, files: seq<File>, i: nat, replies: nat -> Reply, base: seq<Request>,
                  sent: seq<Request>, after: seq<Request>, accepted: bool)
    requires i < |files|
    requires StageOutcome(replies, base, FilesPlan(key, files[..i]), sent, true)
    requires after == sent + FileStep(key, i, files[i])
    requires accepted <==> FileStep(key, i, files[i]) == [] || replies(|sent|) == Accepted
    ensures accepted ==> StageOutcome(replies, base, FilesPlan(key, files[..i + 1]), after, true)
    ensures !accepted ==> StageOutcome(replies, base, FilesPlan(key, files), after, false)
  {
    FilesPlanSnoc(key, files, i);
    FilesPlanPrefix(key, files, i + 1);
    StageStep(replies, base, FilesPlan(key, files[..i]), FileStep(key, i, files[i]), FilesPlan(key, files), sent, after, accepted);
  }

  lemma MultisStep(form: FormData, keys: seq<string>, j: nat, replies: nat -> Reply, base: seq<Request>,
                   sent: seq<Request>, next: seq<Request>, ok: bool)
    requires j < |keys|
    requires StageOutcome(replies, base, MultiPlan(form, keys[..j]), sent, true)
    requires StageOutcome(replies, sent, FilesPlan(keys[j], MultiOf(form, keys[j])), next, ok)
    ensures ok ==> StageOutcome(replies, base, MultiPlan(form, keys[..j + 1]), next, true)
    ensures !ok ==> StageOutcome(replies, base, MultiPlan(form, keys), next, false)
  {
    MultiPlanSnoc(form, keys, j);
    StageThen(replies, base, MultiPlan(form, keys[..j]), sent, FilesPlan(keys[j], MultiOf(form, keys[j])), next, ok);
    if !ok {
      MultiPlanPrefix(form, keys, j + 1);
      StageWiden(replies, base, MultiPlan(form, keys[..j + 1]), MultiPlan(form, keys), next);
    }
  }

  /** The stage before a loop's first pass: nothing of its plan sent yet. */
  lemma StageStart(replies: nat -> Reply, base: seq<Request>)
    requires AcceptedBefore(replies, |base|)
    ensures StageOutcome(replies, base, [], base, true)
  {
    assert base + [] == base;
  }

  /**
   * One pass of the single-file loop: the field's file is uploaded when it is
   * present and valid; `accepted` is false exactly when that upload was refused.
   */
  method UploadSingleField(form: FormData, key: string, replies: nat -> Reply, sent: seq<Request>)
    returns (after: seq<Request>, accepted: bool)
    ensures IsPdfOrDocx(SingleOf(form, key)) ==> after == sent + [UploadSingle(key, SingleOf(form, key).value)]
    ensures !IsPdfOrDocx(SingleOf(form, key)) ==> after == sent
    ensures after == sent + SingleStep(form, key)
    ensures !accepted <==> IsPdfOrDocx(SingleOf(form, key)) && replies(|sent|) != Accepted
    ensures accepted <==> SingleStep(form, key) == [] || replies(|sent|) == Accepted
  {
    var file := SingleOf(form, key);
    after, accepted := sent, true;
    if file.Some? && IsPdfOrDocx(file) {
      var reply := replies(|sent|);
      after := sent + [UploadSingle(key, file.value)];
      accepted := reply == Accepted;
    }
  }

  /** One pass of the inner multi-file loop: file number `i` is uploaded when it is valid. */
  method UploadMultiFile(key: string, i: nat, file: File, replies: nat -> Reply, sent: seq<Request>)
    returns (after: seq<Request>, accepted: bool)
    ensures IsPdfOrDocx(Some(file)) ==> after == sent + [UploadMulti(key, i, file)]
    ensures !IsPdfOrDocx(Some(file)) ==> after == sent
    ensures after == sent + FileStep(key, i, file)
    ensures !accepted <==> IsPdfOrDocx(Some(file)) && replies(|sent|) != Accepted
    ensures accepted <==> FileStep(key, i, file) == [] || replies(|sent|) == Accepted
  {
    after, accepted := sent, true;
    if IsPdfOrDocx(Some(file)) {
      var reply := replies(|sent|);
      after := sent + [UploadMulti(key, i, file)];
      accepted := reply == Accepted;
    }
  }

  /** The single-file loop of `handleSubmit` over `keys`: uploads each valid single file, stopping at the first refusal. */
  method SendSingles(form: FormData, keys: seq<string>, replies: nat -> Reply, base: seq<Request>) returns (sent: seq<Request>, ok: bool)
    requires AcceptedBefore(replies, |base|)
    ensures StageOutcome(replies, base, SinglePlan(form, keys), sent, ok)
  {
    sent := base;
    StageStart(replies, base);
    var i := 0;
    while i < |keys|
      invariant 0 <= i <= |keys|
      invariant StageOutcome(replies, base, SinglePlan(form, keys[..i]), sent, true)
    {
      var after, accepted := UploadSingleField(form, keys[i], replies, sent);
      SinglesStep(form, keys, i, replies, base, sent, after, accepted);
      sent := after;
      if !accepted {
        return sent, false;
      }
      i := i + 1;
    }
    assert keys[..i] == keys;
    ok := true;
  }

  /** The inner loop over one multi-file field: uploads each valid file with its index. */
  method SendFiles(key: string, files: seq<File>, replies: nat -> Reply, base: seq<Request>) returns (sent: seq<Request>, ok: bool)
    requires AcceptedBefore(replies, |base|)
    ensures StageOutcome(replies, base, FilesPlan(key, files), sent, ok)
  {
    sent := base;
    StageStart(replies, base);
    var idx := 0;
    while idx < |files|
      invariant 0 <= idx <= |files|
      invariant StageOutcome(replies, base, FilesPlan(key, files[..idx]), sent, true)
    {
      var after, accepted := UploadMultiFile(key, idx, files[idx], replies, sent);
      FilesStep(key, files, idx, replies, base, sent, after, accepted);
      sent := after;
      if !accepted {
        return sent, false;
      }
      idx := idx + 1;
    }
    assert files[..idx] == files;
    ok := true;
  }

  /** The multi-file loop of `handleSubmit`, field by field in the order of `keys`. */
  method SendMultis(form: FormData, keys: seq<string>, replies: nat -> Reply, base: seq<Request>) returns (sent: seq<Request>, ok: bool)
    requires AcceptedBefore(replies, |base|)
    ensures StageOutcome(replies, base, MultiPlan(form, keys), sent, ok)
  {
    sent := base;
    StageStart(replies, base);
    var j := 0;
    while j < |keys|
      invariant 0 <= j <= |keys|
      invariant StageOutcome(replies, base, MultiPlan(form, keys[..j]), sent, true)
    {
      var next, fieldOk := SendFiles(keys[j], MultiOf(form, keys[j]), replies, sent);
      MultisStep(form, keys, j, replies, base, sent, next, fieldOk);
      sent := next;
      if !fieldOk {
        return sent, false;
      }
      j := j + 1;
    }
    assert keys[..j] == keys;
    ok := true;
  }

  /**
   * The whole exchange of a submission that passed validation, over any key
   * lists: the metadata POST, then the single-file loop, then the multi-file loops.
   */
  method SendStages(form: FormData, singleKeys: seq<string>, multiKeys: seq<string>, replies: nat -> Reply)
    returns (sent: seq<Request>, ok: bool)
    ensures StageOutcome(replies, [], [SendMetadata] + SinglePlan(form, singleKeys) + MultiPlan(form, multiKeys), sent, ok)
  {
    sent := [SendMetadata];
    if replies(0) != Accepted {
      assert ([SendMetadata] + SinglePlan(form, singleKeys) + MultiPlan(form, multiKeys))[..1] == sent;
      return sent, false;
    }
    assert StageOutcome(replies, [], [SendMetadata], sent, true);
    var afterSingles, singlesOk := SendSingles(form, singleKeys, replies, sent);
    StageThen(replies, [], [SendMetadata], sent, SinglePlan(form, singleKeys), afterSingles, singlesOk);
    if !singlesOk {
      StageAbort(replies, [], [SendMetadata] + SinglePlan(form, singleKeys), afterSingles, MultiPlan(form, multiKeys));
      return afterSingles, false;
    }
    sent, ok := SendMultis(form, multiKeys, replies, afterSingles);
    StageThen(replies, [], [SendMetadata] + SinglePlan(form, singleKeys), afterSingles, MultiPlan(form, multiKeys), sent, ok);
  }

  /** Every request of a validated submission, stopping at the first one the server refuses. */
  method SendAll(form: FormData, replies: nat -> Reply) returns (sent: seq<Request>, ok: bool)
    ensures StageOutcome(replies, [], Requests(form), sent, ok)
  {
    sent, ok := SendStages(form, SingleKeys, MultiKeys, replies);
    assert [SendMetadata] + SinglePlan(form, SingleKeys) + MultiPlan(form, MultiKeys) == Requests(form);
  }

  // ----- rendering helpers -----

  const SuccessRedirect: string := "/dashboard/check-status"

  const GenericFailureText: string := "Submission failed. Please check the required fields and network connection."

  /** The error banner shows the stored message, or a generic text when that message is empty. */
  function ErrorBannerText(errorMessage: string): (r: string)
    ensures r != ""
    ensures errorMessage != "" ==> r == errorMessage
    ensures errorMessage == "" ==> r == GenericFailureText
  {
    if errorMessage != "" then errorMessage else GenericFailureText
  }

  /** `getSubmitButtonText()` */
  function SubmitButtonText(status: int): string {
    if status == 1 then "Processing Files... Please Wait"
    else if status == 3 then "Retry Submission"
    else "Submit Check Request"
  }

  /** `isFormActive`: idle or after an error. */
  predicate IsFormActive(status: int) {
    status == 0 || status == 3
  }

  /** The form is on screen while active or loading. */
  predicate FormRendered(status: int) {
    IsFormActive(status) || status == 1
  }

  /** Of the four statuses, only success hides the form; each has its own button text except idle and success. */
  lemma RenderingByStatus(status: int)
    requires 0 <= status <= 3
    ensures FormRendered(status) <==> status != 2
    ensures SubmitButtonText(status) == "Submit Check Request" <==> status == 0 || status == 2
  {
  }

  function NamesLength(files: seq<File>): nat {
    if files == [] then 0 else |files[0].name| + NamesLength(files[1..])
  }

  function JoinNames(files: seq<File>): (r: string)
    requires files != []
    ensures |r| == NamesLength(files) + 2 * (|files| - 1)
    ensures StartsWith(r, files[0].name)
    ensures EndsWith(r, files[|files| - 1].name)
  {
    if |files| == 1 then files[0].name
    else
      var rest := JoinNames(files[1..]);
      assert files[1..][|files[1..]| - 1] == files[|files| - 1];
      var r := files[0].name + ", " + rest;
      assert r[|r| - |rest|..] == rest;
      r
  }

  /** Concatenation regroups around a ", " separator. */
  lemma Regroup(head: string, mid: string, last: string)
    ensures head + (mid + ", " + last) == head + mid + ", " + last
  {
  }

  /** Joining one more name appends ", " and that name. */
  lemma {:induction false} JoinNamesSnoc(files: seq<File>, f: File)
    requires files != []
    ensures JoinNames(files + [f]) == JoinNames(files) + ", " + f.name
  {
    var all := files + [f];
    assert all[0] == files[0] && all[1..] == files[1..] + [f];
    var head := files[0].name + ", ";
    assert JoinNames(all) == head + JoinNames(files[1..] + [f]);
    if |files| > 1 {
      JoinNamesSnoc(files[1..], f);
      assert JoinNames(files) == head + JoinNames(files[1..]);
      Regroup(head, JoinNames(files[1..]), f.name);
    } else {
      assert files[1..] + [f] == [f];
      assert JoinNames([f]) == f.name;
    }
  }

  /** `displayFileNames(files)`: the names joined by ", ", or a placeholder when there are none. */
  function DisplayFileNames(files: seq<File>): (r: string)
    ensures files == [] ==> r == "No files selected."
    ensures files != [] ==>
      && |r| == NamesLength(files) + 2 * (|files| - 1)
      && StartsWith(r, files[0].name)
      && EndsWith(r, files[|files| - 1].name)
  {
    if |files| > 0 then JoinNames(files) else "No files selected."
  }

  /** One file shows its name; each further file adds ", " and its name, in the order chosen. */
  lemma DisplayFileNamesJoin(files: seq<File>, f: File)
    ensures DisplayFileNames([f]) == f.name
    ensures files != [] ==> DisplayFileNames(files + [f]) == DisplayFileNames(files) + ", " + f.name
  {
    if files != [] {
      JoinNamesSnoc(files, f);
    }
  }

  // ----- the form component -----

  class RegistrationForm {
    var formData: FormData
    var isSubmitting: bool
    var submissionStatus: int
    var errorMessage: string

    /** The status is one of the four codes, and a submission in flight shows "loading". */
    ghost predicate Valid()
      reads this
    {
      0 <= submissionStatus <= 3 && (isSubmitting ==> submissionStatus == 1)
    }

    constructor ()
      ensures Valid()
      ensures formData == InitialState() && !isSubmitting && submissionStatus == 0 && errorMessage == ""
    {
      formData := InitialState();
      isSubmitting := false;
      submissionStatus := 0;
      errorMessage := "";
    }

    /** `handleChange`: sets the named text field, nothing else. */
    method HandleChange(name: string, value: string)
      modifies this
      ensures formData == old(formData).(text := old(formData).text[name := value])
      ensures isSubmitting == old(isSubmitting) && submissionStatus == old(submissionStatus)
      ensures errorMessage == old(errorMessage)
    {
      formData := formData.(text := formData.text[name := value]);
    }

    /** `handleSingleFileChange`: stores the first chosen file, or `null` when none is chosen. */
    method HandleSingleFileChange(name: string, files: seq<File>)
      modifies this
      ensures formData == old(formData).(single := old(formData).single[name := if files != [] then Some(files[0]) else None])
      ensures isSubmitting == old(isSubmitting) && submissionStatus == old(submissionStatus)
      ensures errorMessage == old(errorMessage)
    {
      formData := formData.(single := formData.single[name := if files != [] then Some(files[0]) else None]);
    }

    /** `handleMultiFileChange`: stores every chosen file, in order. */
    method HandleMultiFileChange(name: string, files: seq<File>)
      modifies this
      ensures formData == old(formData).(multi := old(formData).multi[name := files])
      ensures isSubmitting == old(isSubmitting) && submissionStatus == old(submissionStatus)
      ensures errorMessage == old(errorMessage)
    {
      formData := formData.(multi := formData.multi[name := files]);
    }

      /**
     * `handleSubmit`. `replies(k)` is the server's answer to the k-th request
     * (0 is the metadata POST); `sent` lists the requests issued. The first
     * refusal aborts the remaining uploads. `redirect` is the page the success
     * timer navigates to.
     */
    method HandleSubmit(replies: nat -> Reply) returns (sent: seq<Request>, redirect: Option<string>)
      requires Valid()
      modifies this
      ensures Valid()
      ensures old(isSubmitting) ==> sent == [] && redirect == None && unchanged(this)
      ensures !old(isSubmitting) ==> !isSubmitting
      ensures redirect == Some(SuccessRedirect) <==> !old(isSubmitting) && submissionStatus == 2
      ensures redirect == None || redirect == Some(SuccessRedirect)
      ensures !old(isSubmitting) && !MandatoryFieldsPresent(old(formData)) ==>
        sent == [] && submissionStatus == 3 && errorMessage == MissingFieldsMessage && formData == old(formData)
      ensures !old(isSubmitting) && MandatoryFieldsPresent(old(formData)) ==>
        && StageOutcome(replies, [], Requests(old(formData)), sent, submissionStatus == 2)
        && (submissionStatus == 2 ==> formData == InitialState() && errorMessage == "")
        && (submissionStatus != 2 ==>
              && submissionStatus == 3
              && errorMessage == FailureMessage(sent[|sent| - 1], replies(|sent| - 1))
              && formData == old(formData))
    {
      sent, redirect := [], None;
      if isSubmitting {
        return;
      }
      isSubmitting := true;
      submissionStatus := 1;
      errorMessage := "";
      var form := formData;

      if !MandatoryFieldsPresent(form) {
        isSubmitting := false;
        submissionStatus := 3;
        errorMessage := MissingFieldsMessage;
        return;
      }

      var ok;
      sent, ok := SendAll(form, replies);
      if ok {
        submissionStatus := 2;
        redirect := Some(SuccessRedirect);
        formData := InitialState();
      } else {
        errorMessage := FailureMessage(sent[|sent| - 1], replies(|sent| - 1));
        submissionStatus := 3;
      }
      isSubmitting := false;
    }
  }
}
