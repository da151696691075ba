/**
 * The upload middleware that decides which files of a request are kept:
 * the per-file quota and extension filter, the request-wide size limit
 * handed to the multipart parser with the per-field file counts, and the
 * per-endpoint size filter that runs after it.
 */
module RequestFilters {
  import opened Wrappers
  import opened Records
  import ByteSize

  // ---------------------------------------------------------------------
  // path.extname (POSIX)

  /** The path without its trailing slashes. */
  function TrimTrailingSlashes(p: string): string {
    if |p| == 0 || p[|p| - 1] != '/' then p else TrimTrailingSlashes(p[..|p| - 1])
  }

  /** The last path component: everything after the last slash. */
  function BaseName(p: string): string {
    if |p| == 0 || p[|p| - 1] == '/' then "" else BaseName(p[..|p| - 1]) + [p[|p| - 1]]
  }

  /** The index of the last dot. */
  function LastDot(s: string): (r: Option<nat>)
    ensures r.Some? ==> r.value < |s|
  {
    if |s| == 0 then None
    else if s[|s| - 1] == '.' then Some(|s| - 1)
    else LastDot(s[..|s| - 1])
  }

  /**
   * `path.extname`: from the last dot of the last component to its end;
   * empty when that component has no dot, starts with its only dot, or
   * is "..".
   */
  function ExtName(path: string): string {
    var base := BaseName(TrimTrailingSlashes(path));
    var dot := LastDot(base);
    if dot.None? || dot.value == 0 || base == ".." then "" else base[dot.value..]
  }

  lemma {:induction false} BaseNameHasNoSlash(p: string)
    ensures '/' !in BaseName(p)
  {
    if |p| > 0 && p[|p| - 1] != '/' {
      BaseNameHasNoSlash(p[..|p| - 1]);
    }
  }

  lemma {:induction false} LastDotIsLast(s: string)
    ensures LastDot(s).Some? ==> s[LastDot(s).value] == '.' && '.' !in s[LastDot(s).value + 1..]
    ensures LastDot(s).None? ==> '.' !in s
  {
    if |s| > 0 && s[|s| - 1] != '.' {
      LastDotIsLast(s[..|s| - 1]);
      if LastDot(s).Some? {
        assert s[LastDot(s).value + 1..] == s[..|s| - 1][LastDot(s).value + 1..] + [s[|s| - 1]];
      } else {
        assert s == s[..|s| - 1] + [s[|s| - 1]];
      }
    }
  }

  /** An extension is empty or a dot followed by neither dot nor slash. */
  lemma ExtNameShape(path: string)
    ensures var ext := ExtName(path);
      ext == "" || (ext[0] == '.' && '.' !in ext[1..] && '/' !in ext)
  {
    var base := BaseName(TrimTrailingSlashes(path));
    BaseNameHasNoSlash(TrimTrailingSlashes(path));
    LastDotIsLast(base);
    var dot := LastDot(base);
    if dot.Some? && dot.value != 0 && base != ".." {
      assert ExtName(path) == base[dot.value..];
      assert ExtName(path)[1..] == base[dot.value + 1..];
    }
  }

  lemma {:induction false} BaseNameWithoutSlash(p: string)
    requires '/' !in p
    ensures BaseName(p) == p
  {
    if |p| > 0 {
      BaseNameWithoutSlash(p[..|p| - 1]);
      assert p[..|p| - 1] + [p[|p| - 1]] == p;
    }
  }

  lemma {:induction false} LastDotAppend(a: string, b: string)
    requires '.' !in b
    ensures LastDot(a + b) == LastDot(a)
  {
    if |b| > 0 {
      assert (a + b)[..|a + b| - 1] == a + b[..|b| - 1];
      LastDotAppend(a, b[..|b| - 1]);
    } else {
      assert a + b == a;
    }
  }

  /** A name `stem.ext` has the extension ".ext", whatever dots the stem holds. */
  lemma ExtNameOfName(stem: string, ext: string)
    requires |stem| > 0 && |ext| > 0
    requires '/' !in stem && '/' !in ext && '.' !in ext
    ensures ExtName(stem + "." + ext) == "." + ext
  {
    var p := stem + "." + ext;
    assert p[|p| - 1] == ext[|ext| - 1];
    assert TrimTrailingSlashes(p) == p;
    BaseNameWithoutSlash(p);
    LastDotAppend(stem + ".", ext);
    assert (stem + ".")[..|stem|] == stem;
    assert LastDot(stem + ".") == Some(|stem|);
    assert p[|stem|..] == "." + ext;
  }

  /** A dot-file such as ".csv" has no extension at all. */
  lemma ExtNameOfDotFile(name: string)
    requires '/' !in name && '.' !in name
    ensures ExtName("." + name) == ""
  {
    var p := "." + name;
    if |name| > 0 {
      assert p[|p| - 1] == name[|name| - 1];
    }
    assert TrimTrailingSlashes(p) == p;
    BaseNameWithoutSlash(p);
    LastDotAppend(".", name);
    assert LastDot(".") == Some(0);
  }

  // ---------------------------------------------------------------------
  // File_Filter

  function SlotsMessage(fieldname: string): string {
    "More files uploaded to endpoint " + fieldname + " than current slots are available"
  }

  const UpdatesMessage := "More updates attempted on file than provisioned"
  const FileTypeMessage := "Different file extension was provided than the provisioned types."

  /**
   * Whether one more upload of `name` fits the endpoint: a new name needs a
   * free file slot, a known name an update left.
   */
  predicate Fits(ep: EndpointState, name: string) {
    if name in ep.files then ep.files[name].updateCount + 1 <= ep.scope.maxFileUpdates
    else ep.scope.fileCount + 1 <= ep.scope.maxFiles
  }

  /** The endpoint respects its quotas: no more files than slots, no more updates than allowed. */
  predicate EndpointWithinQuota(ep: EndpointState) {
    && ep.scope.fileCount <= ep.scope.maxFiles
    && forall n :: n in ep.files ==> ep.files[n].updateCount == 0 || ep.files[n].updateCount <= ep.scope.maxFileUpdates
  }

  /** The endpoint's live count is the number of file names it records. */
  predicate EndpointCountMatches(ep: EndpointState) {
    ep.scope.fileCount == |ep.files|
  }

  predicate WithinQuota(ledger: Ledger) {
    forall e :: e in ledger ==> EndpointWithinQuota(ledger[e])
  }

  predicate CountMatches(ledger: Ledger) {
    forall e :: e in ledger ==> EndpointCountMatches(ledger[e])
  }

  /**
   * The counting half of `File_Filter` on the file's endpoint: the endpoint
   * after counting the file, and the message when it does not fit.
   */
  function Counted(ep: EndpointState, f: UploadedFile): (EndpointState, Option<string>)
  {
    var name := f.originalname;
    if name !in ep.files then
      if ep.scope.fileCount + 1 > ep.scope.maxFiles then (ep, Some(SlotsMessage(f.fieldname)))
      else (EndpointState(ep.scope.(fileCount := ep.scope.fileCount + 1), ep.files[name := FileEntry(0, None)]), None)
    else
      var e := ep.files[name];
      if e.updateCount + 1 > ep.scope.maxFileUpdates then (ep, Some(UpdatesMessage))
      else (ep.(files := ep.files[name := e.(updateCount := e.updateCount + 1)]), None)
  }

  /**
   * Counting either refuses the file, leaving the endpoint as it was, or
   * records it: a new name with no updates and one more slot used, a known
   * name with one more update and its Box id kept. Nothing else changes.
   */
  lemma CountedMeaning(ep: EndpointState, f: UploadedFile)
    ensures var (after, refusal) := Counted(ep, f);
      var name := f.originalname;
      && (refusal.None? <==> Fits(ep, name))
      && (refusal.Some? ==> after == ep)
      && after.scope.(fileCount := ep.scope.fileCount) == ep.scope
      && (forall n :: n in after.files <==> n in ep.files || (n == name && refusal.None?))
      && (forall n :: n in ep.files && n != name ==> after.files[n] == ep.files[n])
      && (name in ep.files ==>
            && after.scope == ep.scope
            && after.files[name].fileId == ep.files[name].fileId
            && after.files[name].updateCount == ep.files[name].updateCount + (if refusal.None? then 1 else 0))
      && (name !in ep.files && refusal.None? ==>
            after.files[name] == FileEntry(0, None) && after.scope.fileCount == ep.scope.fileCount + 1)
  {
  }

  /** Counting keeps the endpoint within its quotas and its count equal to its file names. */
  lemma CountedKeepsQuota(ep: EndpointState, f: UploadedFile)
    ensures EndpointWithinQuota(ep) ==> EndpointWithinQuota(Counted(ep, f).0)
    ensures EndpointCountMatches(ep) ==> EndpointCountMatches(Counted(ep, f).0)
  {
  }

  /**
   * A name recorded for the first time starts at update count 0, whatever the
   * update limit: under a negative limit (kept by `Set_Write_Endpoints`,
   * being truthy) the fresh entry already exceeds it, which is why the
   * quota invariant exempts a count of 0.
   */
  lemma FreshNameAboveNegativeUpdateLimit(ep: EndpointState, f: UploadedFile)
    requires f.originalname !in ep.files && ep.scope.fileCount + 1 <= ep.scope.maxFiles
    requires ep.scope.maxFileUpdates < 0
    ensures Counted(ep, f).1.None?
    ensures f.originalname in Counted(ep, f).0.files
    ensures Counted(ep, f).0.files[f.originalname].updateCount == 0 > ep.scope.maxFileUpdates
  {
  }

  /** What `File_Filter` leaves behind: the ledger, the failed files, and whether the file is kept. */
  datatype Verdict = Verdict(ledger: Ledger, failed: map<string, string>, accepted: bool)

  /**
   * `File_Filter`: count the file against its endpoint, then check its
   * extension; the file is kept only when its name has not failed anywhere
   * in the request.
   */
  function Filtered(ledger: Ledger, failed: map<string, string>, f: UploadedFile): Verdict
    requires f.fieldname in ledger
  {
    var ep := ledger[f.fieldname];
    var counted := Counted(ep, f);
    var failed1 := if counted.1.Some? then failed[f.originalname := counted.1.value] else failed;
    var failed2 := if ExtName(f.originalname) !in ep.scope.fileTypes then failed1[f.originalname := FileTypeMessage] else failed1;
    Verdict(ledger[f.fieldname := counted.0], failed2, f.originalname !in failed2)
  }

  /**
   * A file is kept exactly when its name has not failed earlier in the
   * request, it fits its endpoint's quota and its extension is provisioned.
   * A rejected name is recorded with the reason, the extension taking
   * precedence; other names keep their reasons. A file rejected for its
   * extension is still counted against the quota.
   */
  lemma FilterVerdict(ledger: Ledger, failed: map<string, string>, f: UploadedFile)
    requires f.fieldname in ledger
    ensures var v := Filtered(ledger, failed, f);
      && (v.accepted <==>
            f.originalname !in failed && Fits(ledger[f.fieldname], f.originalname)
            && ExtName(f.originalname) in ledger[f.fieldname].scope.fileTypes)
      && (forall n :: n in v.failed <==> n in failed || (n == f.originalname && !v.accepted))
      && (forall n :: n in failed && n != f.originalname ==> v.failed[n] == failed[n])
      && (f.originalname !in failed && !v.accepted ==>
            v.failed[f.originalname] ==
              if ExtName(f.originalname) !in ledger[f.fieldname].scope.fileTypes then FileTypeMessage
              else if f.originalname in ledger[f.fieldname].files then UpdatesMessage
              else SlotsMessage(f.fieldname))
  {
    CountedMeaning(ledger[f.fieldname], f);
  }

  /** Filtering a file keeps every endpoint within its quotas and its count equal to its file names. */
  lemma FilteredKeepsQuota(ledger: Ledger, failed: map<string, string>, f: UploadedFile)
    requires f.fieldname in ledger
    ensures WithinQuota(ledger) ==> WithinQuota(Filtered(ledger, failed, f).ledger)
    ensures CountMatches(ledger) ==> CountMatches(Filtered(ledger, failed, f).ledger)
  {
    CountedKeepsQuota(ledger[f.fieldname], f);
  }

  /** `File_Filter` on the request's locals; the parser only passes files of declared fields. */
  method FileFilter(req: UploadRequest, f: UploadedFile) returns (accepted: bool)
    requires f.fieldname in req.fileInformation
    modifies req`fileInformation, req`failedFiles
    ensures Verdict(req.fileInformation, req.failedFiles, accepted)
         == Filtered(old(req.fileInformation), old(req.failedFiles), f)
  {
    var ep := req.fileInformation[f.fieldname];
    ghost var counted := Counted(ep, f);
    if f.originalname !in ep.files {
      if ep.scope.fileCount + 1 > ep.scope.maxFiles {
        req.failedFiles := req.failedFiles[f.originalname := SlotsMessage(f.fieldname)];
      } else {
        ep := EndpointState(ep.scope.(fileCount := ep.scope.fileCount + 1), ep.files[f.originalname := FileEntry(0, None)]);
      }
    } else {
      var e := ep.files[f.originalname];
      if e.updateCount + 1 > ep.scope.maxFileUpdates {
        req.failedFiles := req.failedFiles[f.originalname := UpdatesMessage];
      } else {
        ep := ep.(files := ep.files[f.originalname := e.(updateCount := e.updateCount + 1)]);
      }
    }
    assert ep == counted.0;
    assert req.failedFiles == if counted.1.Some? then old(req.failedFiles)[f.originalname := counted.1.value] else old(req.failedFiles);
    req.fileInformation := req.fileInformation[f.fieldname := ep];
    if ExtName(f.originalname) !in ep.scope.fileTypes {
      req.failedFiles := req.failedFiles[f.originalname := FileTypeMessage];
    }
    accepted := f.originalname !in req.failedFiles;
  }

  // ---------------------------------------------------------------------
  // Verify_Uploaded_Files: the limits handed to the multipart parser

  /** The endpoint's `maxFileSize` in bytes; `None` where the conversion gives NaN. */
  function SizeLimit(ep: EndpointState): Option<int> {
    ByteSize.ToByteSize(ep.scope.maxFileSize)
  }

  /** A value of `Math.max` over byte sizes: NaN, -Infinity (no arguments), or a byte count. */
  datatype Limit = NaN | NegativeInfinity | Bytes(n: int)

  /**
   * `lim` is `Math.max` of the endpoints' byte sizes: NaN as soon as one of
   * them is NaN, -Infinity when there are none, their maximum otherwise.
   */
  predicate IsGlobalLimit(ledger: Ledger, lim: Limit) {
    && (lim == NaN <==> exists e :: e in ledger && SizeLimit(ledger[e]).None?)
    && (lim == NegativeInfinity <==> ledger == map[])
    && (lim.Bytes? ==>
          && (forall e :: e in ledger ==> SizeLimit(ledger[e]).Some? && SizeLimit(ledger[e]).value <= lim.n)
          && (exists e :: e in ledger && SizeLimit(ledger[e]) == Some(lim.n)))
  }

  /** The characterisation leaves one value: the limit is a function of the ledger. */
  lemma GlobalLimitUnique(ledger: Ledger, lim: Limit)
    requires IsGlobalLimit(ledger, lim)
    ensures forall other :: IsGlobalLimit(ledger, other) ==> other == lim
  {
    forall other | IsGlobalLimit(ledger, other) ensures other == lim {
      if lim.Bytes? && other.Bytes? {
        var e :| e in ledger && SizeLimit(ledger[e]) == Some(lim.n);
        var d :| d in ledger && SizeLimit(ledger[d]) == Some(other.n);
        assert lim.n <= other.n && other.n <= lim.n;
      }
    }
  }

  /** `Math.max` of two values, NaN winning. */
  function MaxLimit(lim: Limit, size: Option<int>): Limit {
    if lim.NaN? || size.None? then NaN
    else if lim.NegativeInfinity? then Bytes(size.value)
    else if size.value > lim.n then Bytes(size.value)
    else lim
  }

  /** The request-wide `fileSize` limit: `Math.max` over every endpoint's `maxFileSize`. */
  method GlobalLimit(ledger: Ledger) returns (lim: Limit)
    ensures IsGlobalLimit(ledger, lim)
  {
    lim := NegativeInfinity;
    var rest := ledger.Keys;
    ghost var done: set<string> := {};
    while rest != {}
      invariant rest + done == ledger.Keys && rest !! done
      invariant lim == NaN <==> exists e :: e in done && SizeLimit(ledger[e]).None?
      invariant lim == NegativeInfinity <==> done == {}
      invariant lim.Bytes? ==>
          && (forall e :: e in done ==> SizeLimit(ledger[e]).Some? && SizeLimit(ledger[e]).value <= lim.n)
          && (exists e :: e in done && SizeLimit(ledger[e]) == Some(lim.n))
      decreases rest
    {
      var k :| k in rest;
      lim := MaxLimit(lim, SizeLimit(ledger[k]));
      rest := rest - {k};
      done := done + {k};
    }
    assert done == ledger.Keys;
    if ledger != map[] {
      var e :| e in ledger;
      assert e in done;
    }
  }

  /** The parser's file-size check: NaN admits everything, -Infinity nothing. */
  predicate Admits(lim: Limit, size: int) {
    lim.NaN? || (lim.Bytes? && size <= lim.n)
  }

  /** The field description the parser gets for one endpoint. */
  datatype FieldObj = FieldObj(name: string, maxCount: int)

  /** `fields` names every endpoint once, with its `maxFiles` as the count. */
  predicate FieldsOf(ledger: Ledger, fields: seq<FieldObj>) {
    && (forall i :: 0 <= i < |fields| ==> fields[i].name in ledger && fields[i].maxCount == ledger[fields[i].name].scope.maxFiles)
    && (forall e :: e in ledger ==> exists i :: 0 <= i < |fields| && fields[i].name == e)
    && (forall i, j :: 0 <= i < j < |fields| ==> fields[i].name != fields[j].name)
  }

  /** `Build_Array_Of_Field_Objs`: one field per endpoint, limited to its `maxFiles`. */
  method BuildArrayOfFieldObjs(ledger: Ledger) returns (fields: seq<FieldObj>)
    ensures FieldsOf(ledger, fields)
  {
    fields := [];
    var rest := ledger.Keys;
    while rest != {}
      invariant rest <= ledger.Keys
      invariant forall i :: 0 <= i < |fields| ==>
        fields[i].name in ledger && fields[i].name !in rest && fields[i].maxCount == ledger[fields[i].name].scope.maxFiles
      invariant forall e :: e in ledger && e !in rest ==> exists i :: 0 <= i < |fields| && fields[i].name == e
      invariant forall i, j :: 0 <= i < j < |fields| ==> fields[i].name != fields[j].name
      decreases rest
    {
      var k :| k in rest;
      ghost var before := fields;
      fields := fields + [FieldObj(k, ledger[k].scope.maxFiles)];
      assert forall i :: 0 <= i < |before| ==> fields[i] == before[i];
      assert fields[|before|].name == k;
      rest := rest - {k};
    }
  }

  /** Each endpoint's `maxFiles`: how many files the parser takes per field. */
  function MaxCounts(ledger: Ledger): map<string, int> {
    map e | e in ledger :: ledger[e].scope.maxFiles
  }

  /** The parser's per-field allowance, set up from the field descriptions. */
  method FilesLeft(ghost ledger: Ledger, fields: seq<FieldObj>) returns (left: map<string, int>)
    requires FieldsOf(ledger, fields)
    ensures left == MaxCounts(ledger)
  {
    left := map[];
    for i := 0 to |fields|
      invariant forall e :: e in left <==> exists j :: 0 <= j < i && fields[j].name == e
      invariant forall e :: e in left ==> left[e] == ledger[e].scope.maxFiles
    {
      left := left[fields[i].name := fields[i].maxCount];
    }
  }

  /** The files the parser has kept so far for a field. */
  function Kept(files: map<string, seq<UploadedFile>>, field: string): seq<UploadedFile> {
    if field in files then files[field] else []
  }

  /** The parser's state while it reads a request: the locals, the kept files, the allowance left per field. */
  datatype Intake = Intake(
    ledger: Ledger,
    failed: map<string, string>,
    files: map<string, seq<UploadedFile>>,
    left: map<string, int>)

  /**
   * The parser on one incoming file: a field with no allowance left (or not
   * declared) aborts the request, otherwise the allowance drops and
   * `File_Filter` decides; a kept file larger than the limit aborts it.
   */
  function Take(s: Intake, f: UploadedFile, lim: Limit): (r: Option<Intake>)
    requires s.left.Keys <= s.ledger.Keys
    ensures r.Some? ==> r.value.ledger.Keys == s.ledger.Keys && r.value.left.Keys == s.left.Keys
  {
    if f.fieldname !in s.left || s.left[f.fieldname] <= 0 then None
    else
      var v := Filtered(s.ledger, s.failed, f);
      var left := s.left[f.fieldname := s.left[f.fieldname] - 1];
      if !v.accepted then Some(Intake(v.ledger, v.failed, s.files, left))
      else if !Admits(lim, f.size) then None
      else Some(Intake(v.ledger, v.failed, s.files[f.fieldname := Kept(s.files, f.fieldname) + [f]], left))
  }

  /** The parser over the incoming files from index `i`; `None` when it aborts the request. */
  function IntakeAll(s: Intake, incoming: seq<UploadedFile>, i: nat, lim: Limit): (r: Option<Intake>)
    requires s.left.Keys <= s.ledger.Keys && i <= |incoming|
    ensures r.Some? ==> r.value.ledger.Keys == s.ledger.Keys && r.value.left.Keys == s.left.Keys
    decreases |incoming| - i
  {
    if i == |incoming| then Some(s)
    else
      var next := Take(s, incoming[i], lim);
      if next.None? then None else IntakeAll(next.value, incoming, i + 1, lim)
  }

  lemma IntakeAllStep(s: Intake, incoming: seq<UploadedFile>, i: nat, lim: Limit)
    requires s.left.Keys <= s.ledger.Keys && i < |incoming|
    ensures Take(s, incoming[i], lim).None? ==> IntakeAll(s, incoming, i, lim).None?
    ensures Take(s, incoming[i], lim).Some? ==>
      IntakeAll(s, incoming, i, lim) == IntakeAll(Take(s, incoming[i], lim).value, incoming, i + 1, lim)
  {
  }

  function Pos(x: int): nat {
    if x > 0 then x else 0
  }

  /** No field holds more files than its count allows, less what is still allowed. */
  predicate WithinCounts(s: Intake, caps: map<string, int>) {
    && s.left.Keys == caps.Keys
    && s.files.Keys <= caps.Keys
    && (forall k :: k in caps ==> |Kept(s.files, k)| + Pos(s.left[k]) <= Pos(caps[k]))
  }

  /** Every kept file is within the size limit. */
  predicate KeptAdmitted(s: Intake, lim: Limit) {
    forall k, j :: k in s.files && 0 <= j < |s.files[k]| ==> Admits(lim, s.files[k][j].size)
  }

  /** Every kept file sits under its own field, and the ledger of that endpoint has an entry for its name. */
  predicate KeptRecorded(ledger: Ledger, files: map<string, seq<UploadedFile>>) {
    && files.Keys <= ledger.Keys
    && forall k, j :: k in files && 0 <= j < |files[k]| ==>
         files[k][j].fieldname == k && k in ledger && files[k][j].originalname in ledger[k].files
  }

  /**
   * What the parser keeps is bounded: the ledger within its quotas with its
   * counts matching, no field over its count, and every kept file within
   * the size limit.
   */
  predicate Sound(s: Intake, caps: map<string, int>, lim: Limit) {
    && WithinQuota(s.ledger) && CountMatches(s.ledger)
    && WithinCounts(s, caps) && KeptAdmitted(s, lim)
  }

  /** The shape of one step: the allowance drops by one and at most the file itself is added to its field. */
  lemma TakeShape(s: Intake, f: UploadedFile, lim: Limit)
    requires s.left.Keys <= s.ledger.Keys
    ensures var r := Take(s, f, lim);
      r.Some? ==>
        && f.fieldname in s.left && s.left[f.fieldname] > 0
        && r.value.left == s.left[f.fieldname := s.left[f.fieldname] - 1]
        && r.value.ledger == Filtered(s.ledger, s.failed, f).ledger
        && (r.value.files == s.files
            || (Admits(lim, f.size) && r.value.files == s.files[f.fieldname := Kept(s.files, f.fieldname) + [f]]))
  {
  }

  /** A step that does not abort, written out. */
  lemma TakeStep(s: Intake, f: UploadedFile, lim: Limit)
    requires s.left.Keys <= s.ledger.Keys
    requires f.fieldname in s.left && s.left[f.fieldname] > 0
    ensures var v := Filtered(s.ledger, s.failed, f);
      var left := s.left[f.fieldname := s.left[f.fieldname] - 1];
      && (!v.accepted ==> Take(s, f, lim) == Some(Intake(v.ledger, v.failed, s.files, left)))
      && (v.accepted && Admits(lim, f.size) ==>
            Take(s, f, lim) == Some(Intake(v.ledger, v.failed, s.files[f.fieldname := Kept(s.files, f.fieldname) + [f]], left)))
  {
  }

  lemma TakeWithinCounts(s: Intake, f: UploadedFile, lim: Limit, caps: map<string, int>)
    requires s.left.Keys <= s.ledger.Keys
    requires WithinCounts(s, caps)
    ensures Take(s, f, lim).Some? ==> WithinCounts(Take(s, f, lim).value, caps)
  {
    TakeShape(s, f, lim);
    var r := Take(s, f, lim);
    if r.Some? {
      var k := f.fieldname;
      forall c | c in caps ensures |Kept(r.value.files, c)| + Pos(r.value.left[c]) <= Pos(caps[c]) {
        if c != k {
          assert Kept(r.value.files, c) == Kept(s.files, c);
        }
      }
    }
  }

  lemma TakeKeptAdmitted(s: Intake, f: UploadedFile, lim: Limit)
    requires s.left.Keys <= s.ledger.Keys
    requires KeptAdmitted(s, lim)
    ensures Take(s, f, lim).Some? ==> KeptAdmitted(Take(s, f, lim).value, lim)
  {
    TakeShape(s, f, lim);
  }

  lemma TakeKeptRecorded(s: Intake, f: UploadedFile, lim: Limit)
    requires s.left.Keys <= s.ledger.Keys
    requires KeptRecorded(s.ledger, s.files)
    ensures Take(s, f, lim).Some? ==> KeptRecorded(Take(s, f, lim).value.ledger, Take(s, f, lim).value.files)
  {
    TakeShape(s, f, lim);
    var r := Take(s, f, lim);
    if r.Some? {
      var k := f.fieldname;
      var ep := s.ledger[k];
      CountedMeaning(ep, f);
      FilterVerdict(s.ledger, s.failed, f);
      var after := Counted(ep, f).0;
      assert r.value.ledger == s.ledger[k := after];
      forall c, j | c in r.value.files && 0 <= j < |r.value.files[c]|
        ensures r.value.files[c][j].fieldname == c && c in r.value.ledger
          && r.value.files[c][j].originalname in r.value.ledger[c].files
      {
        if r.value.files != s.files && c == k && j == |Kept(s.files, k)| {
          assert r.value.files[c][j] == f;
        } else {
          assert c in s.files && j < |s.files[c]| && r.value.files[c][j] == s.files[c][j];
        }
      }
    }
  }

  lemma TakeSound(s: Intake, f: UploadedFile, lim: Limit, caps: map<string, int>)
    requires s.left.Keys <= s.ledger.Keys
    requires Sound(s, caps, lim)
    ensures Take(s, f, lim).Some? ==> Sound(Take(s, f, lim).value, caps, lim)
  {
    if f.fieldname in s.left && s.left[f.fieldname] > 0 {
      TakeShape(s, f, lim);
      FilteredKeepsQuota(s.ledger, s.failed, f);
      TakeWithinCounts(s, f, lim, caps);
      TakeKeptAdmitted(s, f, lim);
    }
  }

  /**
   * Whatever the files and the limit, a request the parser accepts leaves
   * the ledger within its quotas, keeps at most `maxFiles` files per field,
   * and keeps only files within the size limit.
   */
  lemma {:induction false} IntakeSound(s: Intake, incoming: seq<UploadedFile>, i: nat, lim: Limit, caps: map<string, int>)
    requires s.left.Keys <= s.ledger.Keys && i <= |incoming|
    requires Sound(s, caps, lim)
    ensures IntakeAll(s, incoming, i, lim).Some? ==> Sound(IntakeAll(s, incoming, i, lim).value, caps, lim)
    decreases |incoming| - i
  {
    if i < |incoming| {
      TakeSound(s, incoming[i], lim, caps);
      var next := Take(s, incoming[i], lim);
      if next.Some? {
        IntakeSound(next.value, incoming, i + 1, lim, caps);
      }
    }
  }

  /**
   * Whatever the files and the limit, every file the parser keeps has an
   * entry in its endpoint's ledger.
   */
  lemma {:induction false} IntakeRecorded(s: Intake, incoming: seq<UploadedFile>, i: nat, lim: Limit)
    requires s.left.Keys <= s.ledger.Keys && i <= |incoming|
    requires KeptRecorded(s.ledger, s.files)
    ensures IntakeAll(s, incoming, i, lim).Some? ==>
      KeptRecorded(IntakeAll(s, incoming, i, lim).value.ledger, IntakeAll(s, incoming, i, lim).value.files)
    decreases |incoming| - i
  {
    if i < |incoming| {
      TakeKeptRecorded(s, incoming[i], lim);
      var next := Take(s, incoming[i], lim);
      if next.Some? {
        IntakeRecorded(next.value, incoming, i + 1, lim);
      }
    }
  }

  /** A request starting within its quotas keeps every field to its `maxFiles`. */
  lemma ParserKeepsToMaxFiles(ledger: Ledger, failed: map<string, string>, incoming: seq<UploadedFile>, lim: Limit)
    requires WithinQuota(ledger) && CountMatches(ledger)
    ensures var r := IntakeAll(Intake(ledger, failed, map[], MaxCounts(ledger)), incoming, 0, lim);
      r.Some? ==>
        && WithinQuota(r.value.ledger) && CountMatches(r.value.ledger)
        && (forall k :: k in r.value.files ==> k in ledger && |r.value.files[k]| <= Pos(ledger[k].scope.maxFiles))
  {
    var s := Intake(ledger, failed, map[], MaxCounts(ledger));
    IntakeSound(s, incoming, 0, lim, MaxCounts(ledger));
    var r := IntakeAll(s, incoming, 0, lim);
    if r.Some? {
      forall k | k in r.value.files ensures k in ledger && |r.value.files[k]| <= Pos(ledger[k].scope.maxFiles) {
        assert Kept(r.value.files, k) == r.value.files[k];
      }
    }
  }

  /** The parser on one incoming file, on the request's locals. */
  method TakeFile(req: UploadRequest, left: map<string, int>, f: UploadedFile, lim: Limit)
    returns (taken: bool, left': map<string, int>)
    requires left.Keys <= req.fileInformation.Keys
    modifies req`fileInformation, req`failedFiles, req`files
    ensures var r := Take(Intake(old(req.fileInformation), old(req.failedFiles), old(req.files), left), f, lim);
      (taken <==> r.Some?)
      && (taken ==> Intake(req.fileInformation, req.failedFiles, req.files, left') == r.value)
  {
    ghost var cur := Intake(req.fileInformation, req.failedFiles, req.files, left);
    if f.fieldname !in left || left[f.fieldname] <= 0 {
      return false, left;
    }
    left' := left[f.fieldname := left[f.fieldname] - 1];
    var accepted := FileFilter(req, f);
    TakeStep(cur, f, lim);
    if accepted {
      if !Admits(lim, f.size) {
        return false, left';
      }
      req.files := req.files[f.fieldname := Kept(req.files, f.fieldname) + [f]];
    }
    taken := true;
  }

  /**
   * `Verify_Uploaded_Files`: the parser with `File_Filter`, the request-wide
   * size limit and the per-field counts; `false` is the 401 answer to an
   * aborted request, whose partial state is never written back.
   */
  method VerifyUploadedFiles(req: UploadRequest, incoming: seq<UploadedFile>) returns (ok: bool)
    modifies req`fileInformation, req`failedFiles, req`files
    ensures exists lim :: IsGlobalLimit(old(req.fileInformation), lim)
    ensures forall lim :: IsGlobalLimit(old(req.fileInformation), lim) ==>
      var r := IntakeAll(Intake(old(req.fileInformation), old(req.failedFiles), map[], MaxCounts(old(req.fileInformation))), incoming, 0, lim);
      (ok <==> r.Some?)
      && (ok ==> req.fileInformation == r.value.ledger && req.failedFiles == r.value.failed && req.files == r.value.files)
  {
    var lim := GlobalLimit(req.fileInformation);
    GlobalLimitUnique(req.fileInformation, lim);
    assert IsGlobalLimit(old(req.fileInformation), lim);
    var fields := BuildArrayOfFieldObjs(req.fileInformation);
    var left := FilesLeft(req.fileInformation, fields);
    req.files := map[];
    ok := TakeAll(req, left, incoming, lim);
  }

  /** The parser over every incoming file in order, stopping at the first abort. */
  method TakeAll(req: UploadRequest, allowance: map<string, int>, incoming: seq<UploadedFile>, lim: Limit) returns (ok: bool)
    requires allowance.Keys <= req.fileInformation.Keys
    modifies req`fileInformation, req`failedFiles, req`files
    ensures var r := IntakeAll(Intake(old(req.fileInformation), old(req.failedFiles), old(req.files), allowance), incoming, 0, lim);
      (ok <==> r.Some?)
      && (ok ==> req.fileInformation == r.value.ledger && req.failedFiles == r.value.failed && req.files == r.value.files)
  {
    ghost var start := Intake(req.fileInformation, req.failedFiles, req.files, allowance);
    var left := allowance;
    var i := 0;
    while i < |incoming|
      invariant 0 <= i <= |incoming|
      invariant left.Keys <= req.fileInformation.Keys
      invariant IntakeAll(start, incoming, 0, lim)
             == IntakeAll(Intake(req.fileInformation, req.failedFiles, req.files, left), incoming, i, lim)
    {
      ghost var cur := Intake(req.fileInformation, req.failedFiles, req.files, left);
      var taken;
      taken, left := TakeFile(req, left, incoming[i], lim);
      IntakeAllStep(cur, incoming, i, lim);
      if !taken {
        return false;
      }
      i := i + 1;
    }
    ok := true;
  }

  // ---------------------------------------------------------------------
  // Filter_By_Size

  /** Larger than the endpoint's limit; a NaN limit compares false, so nothing exceeds it. */
  predicate Oversized(f: UploadedFile, limit: Option<int>) {
    limit.Some? && f.size > limit.value
  }

  function SizeMessage(f: UploadedFile): string {
    "Size exceeded of provisioned limit of endpoint " + f.fieldname + " with file " + f.originalname + " "
  }

  /** The files of a field that are within the limit, in order. */
  function KeepWithin(fs: seq<UploadedFile>, limit: Option<int>): (kept: seq<UploadedFile>)
    ensures |kept| <= |fs|
    ensures forall f :: f in kept <==> f in fs && !Oversized(f, limit)
  {
    if |fs| == 0 then []
    else KeepWithin(fs[..|fs| - 1], limit) + (if Oversized(fs[|fs| - 1], limit) then [] else [fs[|fs| - 1]])
  }

  /** Filtering keeps the order: the kept files of `a + b` are those of `a` followed by those of `b`. */
  lemma {:induction false} KeepWithinAppend(a: seq<UploadedFile>, b: seq<UploadedFile>, limit: Option<int>)
    ensures KeepWithin(a + b, limit) == KeepWithin(a, limit) + KeepWithin(b, limit)
    decreases |b|
  {
    if |b| == 0 {
      assert a + b == a;
    } else {
      var init, last := b[..|b| - 1], b[|b| - 1];
      var tail := if Oversized(last, limit) then [] else [last];
      assert (a + b)[..|a + b| - 1] == a + init;
      assert (a + b)[|a + b| - 1] == last;
      calc {
        KeepWithin(a + b, limit);
        KeepWithin(a + init, limit) + tail;
        { KeepWithinAppend(a, init, limit); }
        KeepWithin(a, limit) + KeepWithin(init, limit) + tail;
        KeepWithin(a, limit) + (KeepWithin(init, limit) + tail);
        KeepWithin(a, limit) + KeepWithin(b, limit);
      }
    }
  }

  /** Some file of the field with this name is too large. */
  predicate RejectsName(fs: seq<UploadedFile>, limit: Option<int>, name: string) {
    exists f :: f in fs && Oversized(f, limit) && f.originalname == name
  }

  /** The failed files after recording every oversized file of a field, later files overwriting earlier ones. */
  function MarkOversized(failed: map<string, string>, fs: seq<UploadedFile>, limit: Option<int>): (r: map<string, string>)
    ensures forall n :: n in r <==> n in failed || RejectsName(fs, limit, n)
    ensures forall n :: n in failed && !RejectsName(fs, limit, n) ==> r[n] == failed[n]
    ensures forall n :: RejectsName(fs, limit, n) ==>
      exists f :: f in fs && Oversized(f, limit) && f.originalname == n && r[n] == SizeMessage(f)
  {
    if |fs| == 0 then failed
    else
      var init := fs[..|fs| - 1];
      var last := fs[|fs| - 1];
      var m := MarkOversized(failed, init, limit);
      assert forall f :: f in fs <==> f in init || f == last by {
        assert fs == init + [last];
      }
      if Oversized(last, limit) then m[last.originalname := SizeMessage(last)] else m
  }

  /** One more file through the size filter. */
  lemma FilterFieldStep(fs: seq<UploadedFile>, i: nat, limit: Option<int>, failed: map<string, string>)
    requires i < |fs|
    ensures KeepWithin(fs[..i + 1], limit) == KeepWithin(fs[..i], limit) + (if Oversized(fs[i], limit) then [] else [fs[i]])
    ensures MarkOversized(failed, fs[..i + 1], limit) ==
      if Oversized(fs[i], limit) then MarkOversized(failed, fs[..i], limit)[fs[i].originalname := SizeMessage(fs[i])]
      else MarkOversized(failed, fs[..i], limit)
  {
    assert fs[..i + 1][..i] == fs[..i];
  }

  /** One field's files through the size filter: the kept files and the failed files after it. */
  method FilterField(fs: seq<UploadedFile>, limit: Option<int>, failed: map<string, string>)
    returns (kept: seq<UploadedFile>, failed': map<string, string>)
    ensures kept == KeepWithin(fs, limit)
    ensures failed' == MarkOversized(failed, fs, limit)
  {
    kept := [];
    failed' := failed;
    for i := 0 to |fs|
      invariant kept == KeepWithin(fs[..i], limit)
      invariant failed' == MarkOversized(failed, fs[..i], limit)
    {
      FilterFieldStep(fs, i, limit, failed);
      if Oversized(fs[i], limit) {
        failed' := failed'[fs[i].originalname := SizeMessage(fs[i])];
      } else {
        kept := kept + [fs[i]];
      }
    }
    assert fs[..|fs|] == fs;
  }

  /**
   * `Filter_By_Size`: every field keeps only its files within its endpoint's
   * limit; each name with an oversized file fails with that file's message.
   */
  method FilterBySize(req: UploadRequest)
    requires req.files.Keys <= req.fileInformation.Keys
    modifies req`files, req`failedFiles
    ensures req.files.Keys == old(req.files).Keys
    ensures forall k :: k in req.files ==> req.files[k] == KeepWithin(old(req.files)[k], SizeLimit(req.fileInformation[k]))
    ensures forall n :: n in req.failedFiles <==>
      n in old(req.failedFiles) || exists k :: k in old(req.files) && RejectsName(old(req.files)[k], SizeLimit(req.fileInformation[k]), n)
    ensures forall n ::
      (n in old(req.failedFiles) && forall k :: k in old(req.files) ==> !RejectsName(old(req.files)[k], SizeLimit(req.fileInformation[k]), n))
      ==> req.failedFiles[n] == old(req.failedFiles)[n]
    ensures forall n :: n in req.failedFiles && n !in old(req.failedFiles) ==>
      exists k, f :: k in old(req.files) && f in old(req.files)[k] && Oversized(f, SizeLimit(req.fileInformation[k]))
        && f.originalname == n && req.failedFiles[n] == SizeMessage(f)
  {
    var rest := req.files.Keys;
    ghost var done: set<string> := {};
    while rest != {}
      invariant rest + done == old(req.files).Keys && rest !! done
      invariant req.files.Keys == old(req.files).Keys
      invariant forall k :: k in rest ==> req.files[k] == old(req.files)[k]
      invariant forall k :: k in done ==> req.files[k] == KeepWithin(old(req.files)[k], SizeLimit(req.fileInformation[k]))
      invariant forall n :: n in req.failedFiles <==>
        n in old(req.failedFiles) || exists k :: k in done && RejectsName(old(req.files)[k], SizeLimit(req.fileInformation[k]), n)
      invariant forall n ::
        (n in old(req.failedFiles) && forall k :: k in done ==> !RejectsName(old(req.files)[k], SizeLimit(req.fileInformation[k]), n))
        ==> req.failedFiles[n] == old(req.failedFiles)[n]
      invariant forall n :: n in req.failedFiles && n !in old(req.failedFiles) ==>
        exists k, f :: k in done && f in old(req.files)[k] && Oversized(f, SizeLimit(req.fileInformation[k]))
          && f.originalname == n && req.failedFiles[n] == SizeMessage(f)
      decreases rest
    {
      var k :| k in rest;
      var kept, failed := FilterField(req.files[k], SizeLimit(req.fileInformation[k]), req.failedFiles);
      req.files := req.files[k := kept];
      req.failedFiles := failed;
      rest := rest - {k};
      done := done + {k};
    }
  }

  /** The size filter only drops files, so every file it keeps still has its ledger entry. */
  lemma KeepWithinRecorded(ledger: Ledger, files: map<string, seq<UploadedFile>>, kept: map<string, seq<UploadedFile>>)
    requires KeptRecorded(ledger, files)
    requires kept.Keys == files.Keys
    requires forall k :: k in kept ==> kept[k] == KeepWithin(files[k], SizeLimit(ledger[k]))
    ensures KeptRecorded(ledger, kept)
  {
    forall k, j | k in kept && 0 <= j < |kept[k]|
      ensures kept[k][j].fieldname == k && k in ledger && kept[k][j].originalname in ledger[k].files
    {
      assert kept[k][j] in files[k];
      var i :| 0 <= i < |files[k]| && files[k][i] == kept[k][j];
    }
  }
}
