/**
 * The first stage of an upload: the authorization header names a relay and
 * one of its subject keys; a request whose key is found gets that key's
 * ledger, with its live file counts, in the application's locals.
 */
module Authentication {
  import opened Wrappers
  import opened Strings
  import opened Records
  import RequestFilters

  /** `Basic_Authentication`: two `;`-pieces labelled "relayName" and "subjectKey"; a missing header fails. */
  function BasicAuthentication(authorization: Option<string>): bool {
    && authorization.Some?
    && var parts := Split(authorization.value, ';');
       && |parts| == 2
       && Split(parts[0], ':')[0] == "relayName"
       && Split(parts[1], ':')[0] == "subjectKey"
  }

  /** The header a client sends for a relay and subject key. */
  function Header(keys: Keys): string {
    "relayName:" + keys.relayName + ";subjectKey:" + keys.subjectKey
  }

  /**
   * The extraction in `Authenticate`: the text after the first colon of each
   * of the first two `;`-pieces, labels unchecked. A missing piece fails.
   */
  function ExtractKeys(authorization: Option<string>): Option<Keys> {
    if authorization.None? then None
    else
      var parts := Split(authorization.value, ';');
      if |parts| < 2 then None
      else
        var relay := Split(parts[0], ':');
        var key := Split(parts[1], ':');
        if |relay| < 2 || |key| < 2 then None else Some(Keys(relay[1], key[1]))
  }

  /** The tag, then either nothing or a colon and more, with no `;` anywhere. */
  predicate Labelled(piece: string, tag: string) {
    && |tag| <= |piece| && piece[..|tag|] == tag
    && (|piece| == |tag| || piece[|tag|] == ':')
  }

  lemma LabelledPiece(piece: string, tag: string)
    requires ':' !in tag
    ensures Split(piece, ':')[0] == tag <==> Labelled(piece, tag)
  {
    SplitFirstPiece(piece, ':');
    var p := Split(piece, ':')[0];
    if Labelled(piece, tag) {
      if |piece| == |tag| {
        assert piece == tag;
        SplitWithoutSeparator(tag, ':');
      } else {
        assert piece == tag + [':'] + piece[|tag| + 1..];
        SplitAtFirst(tag, ':', piece[|tag| + 1..]);
      }
    }
    if p == tag {
      assert ':' !in p;
    }
  }

  /** `s` has its only `;` at index `i`, with the two tags either side. */
  predicate FormAt(s: string, i: int) {
    && 0 <= i < |s| && s[i] == ';' && ';' !in s[..i] && ';' !in s[i + 1..]
    && Labelled(s[..i], "relayName") && Labelled(s[i + 1..], "subjectKey")
  }

  lemma {:induction false} FormOfAccepted(s: string)
    requires BasicAuthentication(Some(s))
    ensures FormAt(s, |Split(s, ';')[0]|)
  {
    var parts := Split(s, ';');
    LabelledPiece(parts[0], "relayName");
    LabelledPiece(parts[1], "subjectKey");
    JoinSplit(s, ';');
    assert [parts[1]] == parts[1..];
    assert s == parts[0] + ";" + parts[1];
    var i := |parts[0]|;
    assert s[..i] == parts[0] && s[i + 1..] == parts[1];
  }

  lemma {:induction false} AcceptedOfForm(s: string, i: int)
    requires FormAt(s, i)
    ensures BasicAuthentication(Some(s))
  {
    assert s == s[..i] + [';'] + s[i + 1..];
    SplitAtFirst(s[..i], ';', s[i + 1..]);
    SplitWithoutSeparator(s[i + 1..], ';');
    var parts := Split(s, ';');
    assert parts == [s[..i], s[i + 1..]];
    LabelledPiece(parts[0], "relayName");
    LabelledPiece(parts[1], "subjectKey");
  }

  /**
   * The format `Basic_Authentication` accepts: exactly one `;`, the piece
   * before it tagged "relayName", the piece after it "subjectKey".
   */
  lemma BasicAuthenticationForm(s: string)
    ensures BasicAuthentication(Some(s)) <==> exists i :: FormAt(s, i)
  {
    if BasicAuthentication(Some(s)) {
      FormOfAccepted(s);
    }
    if exists i :: FormAt(s, i) {
      var i :| FormAt(s, i);
      AcceptedOfForm(s, i);
    }
  }

  /** A `;`-free piece `tag:value` splits on its colon into the tag and the value. */
  lemma TaggedPiece(tag: string, value: string)
    requires ':' !in tag && ':' !in value
    ensures Split(tag + ":" + value, ':') == [tag, value]
  {
    assert tag + ":" + value == tag + [':'] + value;
    SplitAtFirst(tag, ':', value);
    SplitWithoutSeparator(value, ':');
  }

  /** The pieces of a header split back into the relay name and subject key. */
  lemma HeaderPieces(keys: Keys, tail: string)
    requires ';' !in keys.relayName && ';' !in keys.subjectKey
    ensures Split(Header(keys) + tail, ';') == ["relayName:" + keys.relayName] + Split("subjectKey:" + keys.subjectKey + tail, ';')
  {
    var r := "relayName:" + keys.relayName;
    var k := "subjectKey:" + keys.subjectKey;
    assert Header(keys) + tail == r + [';'] + (k + tail);
    SplitAtFirst(r, ';', k + tail);
  }

  /** A header built from a relay name and key passes the format check and yields them back. */
  lemma HeaderRoundTrip(keys: Keys)
    requires ';' !in keys.relayName && ':' !in keys.relayName
    requires ';' !in keys.subjectKey && ':' !in keys.subjectKey
    ensures BasicAuthentication(Some(Header(keys)))
    ensures ExtractKeys(Some(Header(keys))) == Some(keys)
  {
    HeaderPieces(keys, "");
    assert Header(keys) + "" == Header(keys);
    assert "subjectKey:" + keys.subjectKey + "" == "subjectKey:" + keys.subjectKey;
    SplitWithoutSeparator("subjectKey:" + keys.subjectKey, ';');
    TaggedPiece("relayName", keys.relayName);
    TaggedPiece("subjectKey", keys.subjectKey);
    assert "relayName:" + keys.relayName == "relayName" + ":" + keys.relayName;
    assert "subjectKey:" + keys.subjectKey == "subjectKey" + ":" + keys.subjectKey;
  }

  /** `Get_Subject_Key`: the key's row in its relay's table; a missing table or row finds nothing. */
  function FindSubjectKey(keyTables: map<string, map<string, SubjectKeyRecord>>, keys: Keys): Option<SubjectKeyRecord> {
    if keys.relayName in keyTables && keys.subjectKey in keyTables[keys.relayName]
    then Some(keyTables[keys.relayName][keys.subjectKey])
    else None
  }

  /**
   * The requests `Authenticate` passes on as written: the 401 for a bad
   * format is sent but the handler does not return, so only the extraction
   * and the lookup decide.
   */
  function AdmittedAsWritten(keyTables: map<string, map<string, SubjectKeyRecord>>, authorization: Option<string>): Option<(Keys, SubjectKeyRecord)> {
    var keys := ExtractKeys(authorization);
    if keys.None? then None
    else
      var found := FindSubjectKey(keyTables, keys.value);
      if found.None? then None else Some((keys.value, found.value))
  }

  /** The requests `Authenticate` is meant to pass on: well-formed headers naming a stored key. */
  function Admitted(keyTables: map<string, map<string, SubjectKeyRecord>>, authorization: Option<string>): Option<(Keys, SubjectKeyRecord)> {
    if !BasicAuthentication(authorization) then None else AdmittedAsWritten(keyTables, authorization)
  }

  /** A well-formed header for a stored key is admitted with that key's record, and only then. */
  lemma AdmittedHeader(keyTables: map<string, map<string, SubjectKeyRecord>>, keys: Keys)
    requires ';' !in keys.relayName && ':' !in keys.relayName
    requires ';' !in keys.subjectKey && ':' !in keys.subjectKey
    ensures Admitted(keyTables, Some(Header(keys))).Some? <==>
      keys.relayName in keyTables && keys.subjectKey in keyTables[keys.relayName]
    ensures Admitted(keyTables, Some(Header(keys))).Some? ==>
      Admitted(keyTables, Some(Header(keys))).value == (keys, keyTables[keys.relayName][keys.subjectKey])
  {
    HeaderRoundTrip(keys);
  }

  /** Only a header of the right format is ever admitted. */
  lemma AdmittedIsWellFormed(keyTables: map<string, map<string, SubjectKeyRecord>>, authorization: Option<string>)
    ensures Admitted(keyTables, authorization).Some? ==>
      BasicAuthentication(authorization) && AdmittedAsWritten(keyTables, authorization) == Admitted(keyTables, authorization)
  {
  }

  /**
   * As written, a header with a third piece fails the format check and is
   * still let through with the stored key's record.
   */
  lemma MalformedHeaderAdmittedAsWritten(keyTables: map<string, map<string, SubjectKeyRecord>>, keys: Keys)
    requires ';' !in keys.relayName && ':' !in keys.relayName
    requires ';' !in keys.subjectKey && ':' !in keys.subjectKey
    requires keys.relayName in keyTables && keys.subjectKey in keyTables[keys.relayName]
    ensures var malformed := Some(Header(keys) + ";x");
      && !BasicAuthentication(malformed)
      && AdmittedAsWritten(keyTables, malformed) == Some((keys, keyTables[keys.relayName][keys.subjectKey]))
      && Admitted(keyTables, malformed).None?
  {
    var k := "subjectKey:" + keys.subjectKey;
    HeaderPieces(keys, ";x");
    assert k + ";x" == k + [';'] + "x";
    SplitAtFirst(k, ';', "x");
    SplitWithoutSeparator("x", ';');
    TaggedPiece("relayName", keys.relayName);
    TaggedPiece("subjectKey", keys.subjectKey);
    assert "relayName:" + keys.relayName == "relayName" + ":" + keys.relayName;
    assert "subjectKey:" + keys.subjectKey == "subjectKey" + ":" + keys.subjectKey;
  }

  // ---------------------------------------------------------------------
  // Authenticate

  /** The ledger with every endpoint's `fileCount` set to its number of recorded files. */
  function WithLiveCounts(ledger: Ledger): Ledger {
    map e | e in ledger :: ledger[e].(scope := ledger[e].scope.(fileCount := |ledger[e].files|))
  }

  /** Live counts match the recorded files; nothing but the counts changes. */
  lemma LiveCounts(ledger: Ledger)
    ensures var counted := WithLiveCounts(ledger);
      && counted.Keys == ledger.Keys
      && RequestFilters.CountMatches(counted)
      && (forall e :: e in ledger ==>
            counted[e].files == ledger[e].files && counted[e].scope.(fileCount := ledger[e].scope.fileCount) == ledger[e].scope)
  {
  }

  /** Recounting a ledger whose counts already match changes nothing. */
  lemma LiveCountsIdempotent(ledger: Ledger)
    requires RequestFilters.CountMatches(ledger)
    ensures WithLiveCounts(ledger) == ledger
  {
    assert forall e :: e in ledger ==> ledger[e].(scope := ledger[e].scope.(fileCount := |ledger[e].files|)) == ledger[e];
  }

  /** The loop of `Authenticate` that loads each endpoint's current number of files. */
  method LoadFileCounts(ledger: Ledger) returns (counted: Ledger)
    ensures counted == WithLiveCounts(ledger)
  {
    counted := ledger;
    var rest := ledger.Keys;
    while rest != {}
      invariant rest <= ledger.Keys && counted.Keys == ledger.Keys
      invariant forall e :: e in rest ==> counted[e] == ledger[e]
      invariant forall e :: e in ledger && e !in rest ==> counted[e] == WithLiveCounts(ledger)[e]
      decreases rest
    {
      var e :| e in rest;
      counted := counted[e := counted[e].(scope := counted[e].scope.(fileCount := |counted[e].files|))];
      rest := rest - {e};
    }
  }

  /**
   * `Authenticate`, returning as soon as it answers 401: an admitted request
   * gets its keys, the key's record, an empty set of failed files and the
   * ledger with live counts; any other request changes nothing.
   */
  method Authenticate(req: UploadRequest, db: Database, authorization: Option<string>) returns (proceed: bool)
    modifies req`keys, req`fileInformation, req`failedFiles, req`subjectKeyData
    ensures var a := Admitted(db.keyTables, authorization);
      && (proceed <==> a.Some?)
      && (proceed ==>
            && req.keys == Some(a.value.0)
            && req.subjectKeyData == Some(a.value.1)
            && req.failedFiles == map[]
            && req.fileInformation == WithLiveCounts(a.value.1.uploadState))
    ensures !proceed ==>
      req.keys == old(req.keys) && req.subjectKeyData == old(req.subjectKeyData)
      && req.failedFiles == old(req.failedFiles) && req.fileInformation == old(req.fileInformation)
  {
    if !BasicAuthentication(authorization) {
      return false;
    }
    var keys := ExtractKeys(authorization);
    if keys.None? {
      return false;
    }
    var found := FindSubjectKey(db.keyTables, keys.value);
    if found.None? {
      return false;
    }
    req.keys := keys;
    req.failedFiles := map[];
    req.subjectKeyData := found;
    req.fileInformation := LoadFileCounts(found.value.uploadState);
    proceed := true;
  }
}
