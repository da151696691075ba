/**
 * The upload route: after `Authenticate`, `Verify_Uploaded_Files` and
 * `Filter_By_Size`, every kept file is written to Box (a new file, or a new
 * version of the file the ledger already has an id for) and the ledger, with
 * the new ids, is written back to the subject key's record.
 */
module UploadFiles {
  import opened Wrappers
  import opened Records
  import opened BoxFiles
  import RequestFilters
  import Authentication
  import SubjectKeyBase

  /**
   * How the route ends: the 401 of a stage, the JSON with the failed files,
   * the JSON for a failed write-back, or no answer at all when a transfer to
   * Box throws.
   */
  datatype Response =
    | Unauthorized
    | FilesRefused
    | Uploaded(failedFiles: map<string, string>)
    | Internal
    | NoResponse

  /** The ledger has an entry for the file's name under its field. */
  predicate Recorded(ledger: Ledger, f: UploadedFile) {
    f.fieldname in ledger && f.originalname in ledger[f.fieldname].files
  }

  /** The ledger knows the Box id of the file. */
  predicate Stored(ledger: Ledger, f: UploadedFile) {
    Recorded(ledger, f) && ledger[f.fieldname].files[f.originalname].fileId.Some?
  }

  /** Every file kept for the request has its Box id in the ledger. */
  predicate AllStored(ledger: Ledger, files: map<string, seq<UploadedFile>>) {
    forall k, j :: k in files && 0 <= j < |files[k]| ==> Stored(ledger, files[k][j])
  }

  /**
   * `after` differs from `before` at most by ids set on entries that had
   * none: the same endpoints, scopes, names and update counts, and every id
   * already known kept.
   */
  predicate GainsIds(before: Ledger, after: Ledger) {
    && after.Keys == before.Keys
    && forall e :: e in before ==>
         && after[e].scope == before[e].scope
         && after[e].files.Keys == before[e].files.Keys
         && forall n :: n in before[e].files ==>
              && after[e].files[n].updateCount == before[e].files[n].updateCount
              && (before[e].files[n].fileId.Some? ==> after[e].files[n].fileId == before[e].files[n].fileId)
  }

  lemma GainsIdsTransitive(a: Ledger, b: Ledger, c: Ledger)
    requires GainsIds(a, b) && GainsIds(b, c)
    ensures GainsIds(a, c)
  {
  }

  /** Setting ids changes no count, so the quotas and the live counts still hold. */
  lemma GainsIdsKeepsQuota(before: Ledger, after: Ledger)
    requires GainsIds(before, after)
    ensures RequestFilters.WithinQuota(before) ==> RequestFilters.WithinQuota(after)
    ensures RequestFilters.CountMatches(before) ==> RequestFilters.CountMatches(after)
  {
    forall e | e in after
      ensures |after[e].files| == |before[e].files|
    {
      assert after[e].files.Keys == before[e].files.Keys;
      assert |after[e].files| == |after[e].files.Keys|;
      assert |before[e].files| == |before[e].files.Keys|;
    }
  }

  /** Setting ids keeps every name recorded and every id already stored. */
  lemma GainsIdsKeepsRecords(before: Ledger, after: Ledger, files: map<string, seq<UploadedFile>>)
    requires GainsIds(before, after)
    ensures RequestFilters.KeptRecorded(before, files) ==> RequestFilters.KeptRecorded(after, files)
    ensures forall f :: Recorded(before, f) ==> Recorded(after, f)
    ensures forall f :: Stored(before, f) ==> Stored(after, f)
  {
  }

  /** The ledger with the file's new Box id set on its entry. */
  function WithFileId(ledger: Ledger, f: UploadedFile, id: Id): Ledger
    requires Recorded(ledger, f)
  {
    var ep := ledger[f.fieldname];
    ledger[f.fieldname := ep.(files := ep.files[f.originalname := ep.files[f.originalname].(fileId := Some(id))])]
  }

  /** Setting the id of a file that had none stores it and changes nothing else. */
  lemma WithFileIdGains(ledger: Ledger, f: UploadedFile, id: Id)
    requires Recorded(ledger, f) && ledger[f.fieldname].files[f.originalname].fileId.None?
    ensures GainsIds(ledger, WithFileId(ledger, f, id))
    ensures Stored(WithFileId(ledger, f, id), f)
  {
  }

  /** A new file in the endpoint's folder; an endpoint without a folder id fails like Box does. */
  function Placed(st: Store, folder: Option<Id>, name: string): Option<(Id, Store)>
    requires WellFormed(st)
  {
    if folder.None? then None else Create(st, folder.value, name, File)
  }

  /**
   * `File_To_Box`: a name without an id is uploaded into its endpoint's
   * folder and gets the new id; a name with one gets a new version of that
   * file. `false` is a transfer that throws.
   */
  method FileToBox(req: UploadRequest, box: BoxClient, f: UploadedFile) returns (ok: bool)
    requires box.Valid() && Recorded(req.fileInformation, f)
    modifies req`fileInformation, box
    ensures box.Valid()
    ensures GainsIds(old(req.fileInformation), req.fileInformation)
    ensures ok ==> Stored(req.fileInformation, f)
    ensures var entry := old(req.fileInformation)[f.fieldname].files[f.originalname];
      entry.fileId.Some? ==>
        && req.fileInformation == old(req.fileInformation)
        && box.State() == old(box.State())
        && (ok <==> entry.fileId.value in old(box.versions))
        && box.versions == if ok then old(box.versions)[entry.fileId.value := old(box.versions)[entry.fileId.value] + 1] else old(box.versions)
    ensures var ep := old(req.fileInformation)[f.fieldname];
      var created := Placed(old(box.State()), ep.scope.boxFolderId, f.originalname);
      ep.files[f.originalname].fileId.None? ==>
        && (ok <==> created.Some?)
        && (ok ==>
              && req.fileInformation == WithFileId(old(req.fileInformation), f, created.value.0)
              && box.State() == created.value.1
              && box.versions == old(box.versions)[created.value.0 := 1])
        && (!ok ==>
              && req.fileInformation == old(req.fileInformation)
              && box.State() == old(box.State())
              && box.versions == old(box.versions))
  {
    var ep := req.fileInformation[f.fieldname];
    var entry := ep.files[f.originalname];
    if entry.fileId.None? {
      if ep.scope.boxFolderId.None? {
        return false;
      }
      var id := box.UploadFile(ep.scope.boxFolderId.value, f.originalname);
      if id.None? {
        return false;
      }
      WithFileIdGains(req.fileInformation, f, id.value);
      req.fileInformation := WithFileId(req.fileInformation, f, id.value);
      ok := true;
    } else {
      ok := box.UpdateFile(entry.fileId.value);
    }
  }

  /** One more file of a field sent: the earlier ones stay stored, and all of them recorded. */
  lemma FieldStep(before: Ledger, after: Ledger, fs: seq<UploadedFile>, i: nat)
    requires GainsIds(before, after) && i < |fs|
    requires forall j :: 0 <= j < |fs| ==> Recorded(before, fs[j])
    requires forall j :: 0 <= j < i ==> Stored(before, fs[j])
    ensures forall j :: 0 <= j < |fs| ==> Recorded(after, fs[j])
    ensures Stored(after, fs[i]) ==> forall j :: 0 <= j < i + 1 ==> Stored(after, fs[j])
  {
    GainsIdsKeepsRecords(before, after, map[]);
  }

  /** The files of one field, in order, stopping at the first transfer that throws. */
  method FieldToBox(req: UploadRequest, box: BoxClient, fs: seq<UploadedFile>) returns (ok: bool)
    requires box.Valid()
    requires forall j :: 0 <= j < |fs| ==> Recorded(req.fileInformation, fs[j])
    modifies req`fileInformation, box
    ensures box.Valid()
    ensures GainsIds(old(req.fileInformation), req.fileInformation)
    ensures ok ==> forall j :: 0 <= j < |fs| ==> Stored(req.fileInformation, fs[j])
  {
    for i := 0 to |fs|
      invariant box.Valid()
      invariant GainsIds(old(req.fileInformation), req.fileInformation)
      invariant forall j :: 0 <= j < |fs| ==> Recorded(req.fileInformation, fs[j])
      invariant forall j :: 0 <= j < i ==> Stored(req.fileInformation, fs[j])
    {
      ghost var before := req.fileInformation;
      ok := FileToBox(req, box, fs[i]);
      GainsIdsTransitive(old(req.fileInformation), before, req.fileInformation);
      FieldStep(before, req.fileInformation, fs, i);
      if !ok {
        return;
      }
    }
    ok := true;
  }

  /** The loop of the route over the kept files, field by field. */
  method FilesToBox(req: UploadRequest, box: BoxClient) returns (ok: bool)
    requires box.Valid()
    requires RequestFilters.KeptRecorded(req.fileInformation, req.files)
    modifies req`fileInformation, box
    ensures box.Valid()
    ensures GainsIds(old(req.fileInformation), req.fileInformation)
    ensures RequestFilters.KeptRecorded(req.fileInformation, req.files)
    ensures ok ==> AllStored(req.fileInformation, req.files)
  {
    var rest := req.files.Keys;
    ghost var done: set<string> := {};
    while rest != {}
      invariant rest + done == req.files.Keys && rest !! done
      invariant box.Valid()
      invariant GainsIds(old(req.fileInformation), req.fileInformation)
      invariant RequestFilters.KeptRecorded(req.fileInformation, req.files)
      invariant forall k, j :: k in done && 0 <= j < |req.files[k]| ==> Stored(req.fileInformation, req.files[k][j])
      decreases rest
    {
      var k :| k in rest;
      ghost var before := req.fileInformation;
      ok := FieldToBox(req, box, req.files[k]);
      GainsIdsTransitive(old(req.fileInformation), before, req.fileInformation);
      GainsIdsKeepsRecords(before, req.fileInformation, req.files);
      if !ok {
        return;
      }
      rest := rest - {k};
      done := done + {k};
    }
    ok := true;
  }

  /**
   * The subject-key tables after the write-back of `record` for `relay`: it
   * replaces the row with the record's own key when there is one, and
   * changes nothing otherwise.
   */
  function WrittenBack(keyTables: map<string, map<string, SubjectKeyRecord>>, relay: string, record: SubjectKeyRecord)
    : (r: map<string, map<string, SubjectKeyRecord>>)
    ensures r.Keys == keyTables.Keys
    ensures forall t :: t in r ==> r[t].Keys == keyTables[t].Keys
    ensures forall t, k :: t in r && k in r[t] && (t != relay || k != record.subjectKey) ==> r[t][k] == keyTables[t][k]
    ensures relay in keyTables && record.subjectKey in keyTables[relay] ==> r[relay][record.subjectKey] == record
  {
    if relay in keyTables && record.subjectKey in keyTables[relay]
    then keyTables[relay := keyTables[relay][record.subjectKey := record]]
    else keyTables
  }

  /**
   * The route's handler: every kept file to Box, then the ledger with its new
   * ids back into the subject key's record. A transfer that throws leaves the
   * request unanswered and the store untouched.
   */
  method UploadHandler(req: UploadRequest, db: Database, box: BoxClient) returns (response: Response)
    requires box.Valid() && req.keys.Some? && req.subjectKeyData.Some?
    requires RequestFilters.KeptRecorded(req.fileInformation, req.files)
    modifies req`fileInformation, req`subjectKeyData, db`keyTables, box
    ensures box.Valid()
    ensures GainsIds(old(req.fileInformation), req.fileInformation)
    ensures response.Uploaded? || response.Internal? || response.NoResponse?
    ensures !response.Uploaded? ==> db.keyTables == old(db.keyTables)
    ensures !response.NoResponse? ==>
      && AllStored(req.fileInformation, req.files)
      && req.subjectKeyData == Some(old(req.subjectKeyData).value.(uploadState := req.fileInformation))
      && (response.Internal? <==> req.keys.value.relayName !in old(db.keyTables))
    ensures response.Uploaded? ==>
      && response.failedFiles == req.failedFiles
      && db.keyTables == WrittenBack(old(db.keyTables), req.keys.value.relayName, req.subjectKeyData.value)
  {
    var ok := FilesToBox(req, box);
    if !ok {
      return NoResponse;
    }
    var record := req.subjectKeyData.value.(uploadState := req.fileInformation);
    req.subjectKeyData := Some(record);
    var relay := req.keys.value.relayName;
    var written := SubjectKeyBase.UpdateSubjectKey(db, relay, record);
    if written.Err? {
      return Internal;
    }
    assert record.subjectKey !in old(db.keyTables)[relay] ==> old(db.keyTables)[relay := old(db.keyTables)[relay]] == old(db.keyTables);
    response := Uploaded(req.failedFiles);
  }

  /** Every stored ledger, recounted as `Authenticate` recounts it, is within its quotas. */
  ghost predicate StoredWithinQuota(keyTables: map<string, map<string, SubjectKeyRecord>>) {
    forall r, k :: r in keyTables && k in keyTables[r] ==>
      RequestFilters.WithinQuota(Authentication.WithLiveCounts(keyTables[r][k].uploadState))
  }

  /** Writing back a ledger within its quotas, with its counts matching, keeps every stored ledger within its quotas. */
  lemma WrittenBackWithinQuota(keyTables: map<string, map<string, SubjectKeyRecord>>, relay: string, record: SubjectKeyRecord)
    requires StoredWithinQuota(keyTables)
    requires RequestFilters.WithinQuota(record.uploadState) && RequestFilters.CountMatches(record.uploadState)
    ensures StoredWithinQuota(WrittenBack(keyTables, relay, record))
  {
    Authentication.LiveCountsIdempotent(record.uploadState);
  }

  /** An admitted request carries the record stored under its keys. */
  lemma AdmittedRecord(keyTables: map<string, map<string, SubjectKeyRecord>>, authorization: Option<string>)
    ensures var a := Authentication.Admitted(keyTables, authorization);
      a.Some? ==>
        a.value.0.relayName in keyTables && a.value.0.subjectKey in keyTables[a.value.0.relayName]
        && a.value.1 == keyTables[a.value.0.relayName][a.value.0.subjectKey]
  {
  }

  /**
   * `Verify_Uploaded_Files` then `Filter_By_Size`: what passes both has its
   * ledger entries, and a ledger within its quotas, with its counts
   * matching, stays so.
   */
  method ParseAndFilter(req: UploadRequest, incoming: seq<UploadedFile>) returns (ok: bool)
    modifies req`fileInformation, req`failedFiles, req`files
    ensures ok ==> RequestFilters.KeptRecorded(req.fileInformation, req.files)
    ensures ok && RequestFilters.WithinQuota(old(req.fileInformation)) && RequestFilters.CountMatches(old(req.fileInformation))
      ==> RequestFilters.WithinQuota(req.fileInformation) && RequestFilters.CountMatches(req.fileInformation)
  {
    ghost var start := req.fileInformation;
    ghost var failed := req.failedFiles;
    ok := RequestFilters.VerifyUploadedFiles(req, incoming);
    if !ok {
      return;
    }
    ghost var lim :| RequestFilters.IsGlobalLimit(start, lim);
    ghost var s := RequestFilters.Intake(start, failed, map[], RequestFilters.MaxCounts(start));
    RequestFilters.IntakeRecorded(s, incoming, 0, lim);
    if RequestFilters.WithinQuota(start) && RequestFilters.CountMatches(start) {
      RequestFilters.ParserKeepsToMaxFiles(start, failed, incoming, lim);
    }
    ghost var parserFiles := req.files;
    RequestFilters.FilterBySize(req);
    RequestFilters.KeepWithinRecorded(req.fileInformation, parserFiles, req.files);
  }

  /**
   * The route after `Authenticate`: the parser with `File_Filter`, the size
   * filter, then the handler. A ledger that starts within its quotas, with
   * its counts matching, is written back so.
   */
  method FilterAndStore(req: UploadRequest, db: Database, box: BoxClient, incoming: seq<UploadedFile>)
    returns (response: Response)
    requires box.Valid() && req.keys.Some? && req.subjectKeyData.Some?
    requires RequestFilters.CountMatches(req.fileInformation)
    modifies req`fileInformation, req`failedFiles, req`files, req`subjectKeyData, db`keyTables, box
    ensures box.Valid() && req.keys == old(req.keys)
    ensures !response.Uploaded? ==> db.keyTables == old(db.keyTables)
    ensures response.Uploaded? ==>
      && req.subjectKeyData == Some(old(req.subjectKeyData).value.(uploadState := req.fileInformation))
      && AllStored(req.fileInformation, req.files)
      && response.failedFiles == req.failedFiles
      && db.keyTables == WrittenBack(old(db.keyTables), req.keys.value.relayName, req.subjectKeyData.value)
      && (RequestFilters.WithinQuota(old(req.fileInformation)) ==>
            RequestFilters.WithinQuota(req.fileInformation) && RequestFilters.CountMatches(req.fileInformation))
  {
    var ok := ParseAndFilter(req, incoming);
    if !ok {
      return FilesRefused;
    }
    ghost var parsed := req.fileInformation;
    response := UploadHandler(req, db, box);
    GainsIdsKeepsQuota(parsed, req.fileInformation);
  }

  /**
   * `POST /`: the three filters and the handler in order. Whatever the
   * header and the files, a store whose ledgers are within their quotas
   * stays so; a request that is refused, or whose transfer throws, changes
   * nothing stored; an answered request has stored its ledger, with the Box
   * id of every kept file, under its key.
   */
  method PostUpload(req: UploadRequest, db: Database, box: BoxClient, authorization: Option<string>, incoming: seq<UploadedFile>)
    returns (response: Response)
    requires box.Valid()
    modifies req, db`keyTables, box
    ensures box.Valid()
    ensures StoredWithinQuota(old(db.keyTables)) ==> StoredWithinQuota(db.keyTables)
    ensures !response.Uploaded? ==> db.keyTables == old(db.keyTables)
    ensures response.Uploaded? ==>
      && req.keys.Some? && req.subjectKeyData.Some?
      && req.subjectKeyData.value.uploadState == req.fileInformation
      && AllStored(req.fileInformation, req.files)
      && db.keyTables == WrittenBack(old(db.keyTables), req.keys.value.relayName, req.subjectKeyData.value)
  {
    var proceed := Authentication.Authenticate(req, db, authorization);
    if !proceed {
      return Unauthorized;
    }
    AdmittedRecord(db.keyTables, authorization);
    Authentication.LiveCounts(req.subjectKeyData.value.uploadState);
    response := FilterAndStore(req, db, box, incoming);
    if response.Uploaded? && StoredWithinQuota(old(db.keyTables)) {
      WrittenBackWithinQuota(old(db.keyTables), req.keys.value.relayName, req.subjectKeyData.value);
    }
  }
}
