/**
 * Subject keys: the seven-digit keys a relay hands out, each with its own
 * upload ledger (one entry per endpoint: the endpoint's scope with its
 * custom path resolved, and no files yet). A relay issues keys only while
 * its pull counter stays within its quota.
 *
 * `Math.random()` is not modelled as a source of randomness: every draw it
 * would make is supplied by the caller as a real number in [0, 1).
 */
module SubjectKeyBase {
  import opened Wrappers
  import opened Strings
  import opened Records
  import opened BoxFiles
  import RelayBase

  // ---------------------------------------------------------------------
  // Random_Number_N_Digits

  predicate ValidDraws(draws: seq<real>) {
    forall k :: 0 <= k < |draws| ==> 0.0 <= draws[k] < 1.0
  }

  /** `Math.floor(x * 10)` for a draw `x` in [0, 1): a decimal digit. */
  function DrawDigit(x: real): (d: nat)
    requires 0.0 <= x < 1.0
    ensures d < 10
  {
    (x * 10.0).Floor
  }

  /** The digits the draws denote, one character per draw, in order. */
  function DigitString(draws: seq<real>): (s: string)
    requires ValidDraws(draws)
    ensures |s| == |draws| && AllDigits(s)
    ensures forall k :: 0 <= k < |draws| ==> s[k] == DigitChar(DrawDigit(draws[k]))
  {
    if |draws| == 0 then "" else [DigitChar(DrawDigit(draws[0]))] + DigitString(draws[1..])
  }

  /** `Random_Number_N_Digits(n)`: `n` decimal digits, one per draw. */
  method RandomNumberNDigits(n: nat, draws: seq<real>) returns (s: string)
    requires |draws| >= n && ValidDraws(draws)
    ensures s == DigitString(draws[..n])
    ensures |s| == n && AllDigits(s)
  {
    s := "";
    var i := 0;
    while i < n
      invariant 0 <= i <= n && |s| == i
      invariant forall k :: 0 <= k < i ==> s[k] == DigitChar(DrawDigit(draws[k]))
    {
      s := s + [DigitChar(DrawDigit(draws[i]))];
      i := i + 1;
    }
    assert s == DigitString(draws[..n]);
  }

  /** Keys are seven digits long. */
  const KeyLength := 7

  /** At most five candidate keys are drawn. */
  const MaxAttempts := 5

  /** The `i`-th candidate key: seven digits from the `i`-th block of seven draws. */
  function Candidate(draws: seq<real>, i: nat): (key: string)
    requires ValidDraws(draws) && |draws| >= KeyLength * (i + 1)
    ensures |key| == KeyLength && AllDigits(key)
  {
    DigitString(draws[KeyLength * i..KeyLength * (i + 1)])
  }

  /** The first candidate from the `i`-th on that no existing key already uses; `None` when all of them collide. */
  function FirstFree(taken: set<string>, draws: seq<real>, i: nat): (r: Option<string>)
    requires i <= MaxAttempts && ValidDraws(draws) && |draws| >= KeyLength * MaxAttempts
    ensures r.Some? ==> r.value !in taken && |r.value| == KeyLength && AllDigits(r.value)
    ensures r.Some? ==> exists j :: i <= j < MaxAttempts && r.value == Candidate(draws, j)
    ensures r.None? <==> forall j :: i <= j < MaxAttempts ==> Candidate(draws, j) in taken
    decreases MaxAttempts - i
  {
    if i == MaxAttempts then None
    else if Candidate(draws, i) !in taken then Some(Candidate(draws, i))
    else FirstFree(taken, draws, i + 1)
  }

  // ---------------------------------------------------------------------
  // Create_Custom_Path

  /** The custom-path template with every "subjectKey" replaced by the key and then every "pullCount" by the pull number. */
  function ResolvePath(template: string, subjectKey: string, keyPull: int): string {
    Substitute(Substitute(template, "subjectKey", subjectKey), "pullCount", IntToString(keyPull))
  }

  /**
   * Each token is replaced where it stands, mid-segment included: a
   * template "a subjectKey b pullCount c" resolves to "a KEY b PULL c"
   * whenever the pieces a, b and c hold neither token themselves. The key
   * is a non-empty run of digits, as every drawn key is.
   */
  lemma ResolveKeyThenPull(a: string, b: string, c: string, subjectKey: string, keyPull: nat)
    requires forall k: nat :: !MatchAt(a, "subjectKey", k) && !MatchAt(a, "pullCount", k)
    requires forall k: nat :: !MatchAt(b, "subjectKey", k) && !MatchAt(b, "pullCount", k)
    requires forall k: nat :: !MatchAt(c, "subjectKey", k) && !MatchAt(c, "pullCount", k)
    requires |subjectKey| > 0 && AllDigits(subjectKey)
    ensures ResolvePath(a + "subjectKey" + b + "pullCount" + c, subjectKey, keyPull)
         == a + subjectKey + b + NatToString(keyPull) + c
  {
    KeyPass(a, b, c, subjectKey);
    HeadWithoutPull(a, subjectKey, b);
    PullPass(a + subjectKey + b, c, IntToString(keyPull));
  }

  /** The key pass replaces the one key token between a and b and nothing else. */
  lemma KeyPass(a: string, b: string, c: string, subjectKey: string)
    requires forall k: nat :: !MatchAt(a, "subjectKey", k)
    requires forall k: nat :: !MatchAt(b, "subjectKey", k)
    requires forall k: nat :: !MatchAt(c, "subjectKey", k)
    ensures Substitute(a + "subjectKey" + b + "pullCount" + c, "subjectKey", subjectKey)
         == a + subjectKey + b + "pullCount" + c
  {
    var key := "subjectKey";
    var rest := b + "pullCount" + c;
    assert a + key + b + "pullCount" + c == a + key + rest;
    NoMatchBefore(a, key + rest, key);
    assert a + (key + rest) == a + key + rest;
    SubstituteFirst(a, key, subjectKey, rest);
    RestWithoutKey(b, c);
    SubstituteAbsent(rest, key, subjectKey);
    assert a + subjectKey + rest == a + subjectKey + b + "pullCount" + c;
  }

  /** The pull token between two pieces free of the key token leaves no key token. */
  lemma RestWithoutKey(b: string, c: string)
    requires forall k: nat :: !MatchAt(b, "subjectKey", k)
    requires forall k: nat :: !MatchAt(c, "subjectKey", k)
    ensures forall k: nat :: !MatchAt(b + "pullCount" + c, "subjectKey", k)
  {
    var key, pull := "subjectKey", "pullCount";
    assert !MatchAt(pull, key, 0);
    NoMatchConcat(pull, c, key);
    NoMatchConcat(b, pull + c, key);
    assert b + (pull + c) == b + pull + c;
  }

  /** A digit key between two pieces free of the pull token leaves no pull token. */
  lemma HeadWithoutPull(a: string, subjectKey: string, b: string)
    requires forall k: nat :: !MatchAt(a, "pullCount", k)
    requires forall k: nat :: !MatchAt(b, "pullCount", k)
    requires |subjectKey| > 0 && AllDigits(subjectKey)
    ensures forall k: nat :: !MatchAt(a + subjectKey + b, "pullCount", k)
  {
    var pull := "pullCount";
    assert 'p' !in subjectKey by {
      forall k | 0 <= k < |subjectKey| ensures subjectKey[k] != 'p' {
        assert IsDigit(subjectKey[k]);
      }
    }
    NoMatchWithoutHead(subjectKey, pull);
    assert IsDigit(subjectKey[0]);
    NoMatchConcat(a, subjectKey, pull);
    var last := subjectKey[|subjectKey| - 1];
    assert (a + subjectKey)[|a + subjectKey| - 1] == last;
    assert IsDigit(last);
    NoMatchConcat(a + subjectKey, b, pull);
  }

  /** The pull pass replaces the one pull token between head and c and nothing else. */
  lemma PullPass(head: string, c: string, pull: string)
    requires forall k: nat :: !MatchAt(head, "pullCount", k)
    requires forall k: nat :: !MatchAt(c, "pullCount", k)
    ensures Substitute(head + "pullCount" + c, "pullCount", pull) == head + pull + c
  {
    var t := "pullCount";
    NoMatchBefore(head, t + c, t);
    assert head + (t + c) == head + t + c;
    SubstituteFirst(head, t, pull, c);
    SubstituteAbsent(c, t, pull);
  }

  /** A template with neither token is its own resolution, so no folder is built for it. */
  lemma ResolveWithoutTokens(template: string, subjectKey: string, keyPull: int)
    requires forall k: nat :: !MatchAt(template, "subjectKey", k) && !MatchAt(template, "pullCount", k)
    ensures ResolvePath(template, subjectKey, keyPull) == template
  {
    SubstituteAbsent(template, "subjectKey", subjectKey);
    SubstituteAbsent(template, "pullCount", IntToString(keyPull));
  }

  /**
   * `scope` is `given` customised for a key in storage state `st`: the custom
   * path is gone, the resolved path is appended to the Box path, and the
   * folder is the one the resolved path leads to from the given folder, or
   * the given folder when the path had no token to resolve.
   */
  predicate CustomizedScope(given: Scope, subjectKey: string, keyPull: int, st: Store, scope: Scope) {
    given.customPath.Some? &&
    var resolved := ResolvePath(given.customPath.value, subjectKey, keyPull);
    scope == given.(customPath := None, boxRelativePath := given.boxRelativePath + resolved, boxFolderId := scope.boxFolderId) &&
    (resolved == given.customPath.value ==> scope.boxFolderId == given.boxFolderId) &&
    (resolved != given.customPath.value ==>
       given.boxFolderId.Some? && scope.boxFolderId.Some? && Locate(st, given.boxFolderId.value, resolved) == scope.boxFolderId)
  }

  /** A customised scope stays customised as storage grows. */
  lemma CustomizedScopeExtends(given: Scope, subjectKey: string, keyPull: int, st1: Store, st2: Store, scope: Scope)
    requires CustomizedScope(given, subjectKey, keyPull, st1, scope) && Extends(st1, st2)
    ensures CustomizedScope(given, subjectKey, keyPull, st2, scope)
  {
    var resolved := ResolvePath(given.customPath.value, subjectKey, keyPull);
    if resolved != given.customPath.value {
      LocateExtends(st1, st2, given.boxFolderId.value, resolved);
    }
  }

  /**
   * `Create_Custom_Path`: the endpoint's custom path resolved for the key;
   * when resolving changed it, the resolved path is built from the
   * endpoint's folder and becomes its folder. A missing custom path or
   * folder id, or a failed build, is an error.
   */
  method CreateCustomPath(box: BoxClient, scope: Scope, subjectKey: string, keyPull: int) returns (r: Result<Scope>)
    requires box.Valid()
    modifies box`children, box`nextId
    ensures box.Valid() && Extends(old(box.State()), box.State())
    ensures scope.customPath.None? ==> r.Err? && box.State() == old(box.State())
    ensures r.Ok? ==> CustomizedScope(scope, subjectKey, keyPull, box.State(), r.value)
    ensures scope.customPath.Some? && ResolvePath(scope.customPath.value, subjectKey, keyPull) == scope.customPath.value ==>
              r.Ok? && box.State() == old(box.State())
    ensures scope.customPath.Some? && ResolvePath(scope.customPath.value, subjectKey, keyPull) != scope.customPath.value ==>
              (r.Ok? <==> scope.boxFolderId.Some? &&
                          DataFolders(old(box.State()), scope.boxFolderId.value,
                                      ResolvePath(scope.customPath.value, subjectKey, keyPull), []).0.Ok?)
    ensures scope.customPath.Some? && ResolvePath(scope.customPath.value, subjectKey, keyPull) != scope.customPath.value ==>
              if scope.boxFolderId.None? then box.State() == old(box.State())
              else box.State() == DataFolders(old(box.State()), scope.boxFolderId.value,
                                              ResolvePath(scope.customPath.value, subjectKey, keyPull), []).1
  {
    if scope.customPath.None? {
      return Err("customPath is not a string");
    }
    var resolved := ResolvePath(scope.customPath.value, subjectKey, keyPull);
    var folder := scope.boxFolderId;
    if scope.customPath.value != resolved {
      if folder.None? {
        return Err(FolderError);
      }
      ghost var before := box.State();
      var made := box.MakeDataFolders(folder.value, resolved, []);
      if made.Err? {
        return Err(made.message);
      }
      DataFoldersLocated(before, folder.value, resolved, []);
      folder := Some(made.value.basetree[resolved]);
    }
    r := Ok(scope.(customPath := None, boxRelativePath := scope.boxRelativePath + resolved, boxFolderId := folder));
  }

  // ---------------------------------------------------------------------
  // Add_Subject_Key

  /** The ledger a new key starts with: every endpoint of the relay, customised for the key, with no files. */
  predicate FreshLedger(endpoints: map<string, Scope>, subjectKey: string, keyPull: int, st: Store, ledger: Ledger) {
    ledger.Keys == endpoints.Keys &&
    forall e :: e in ledger ==>
      ledger[e].files == map[] && CustomizedScope(endpoints[e], subjectKey, keyPull, st, ledger[e].scope)
  }

  /** Every endpoint has a custom path, and resolving it for the key and pull leaves it as it is. */
  predicate FixedPaths(endpoints: map<string, Scope>, subjectKey: string, keyPull: int) {
    forall e :: e in endpoints ==>
      endpoints[e].customPath.Some? && ResolvePath(endpoints[e].customPath.value, subjectKey, keyPull) == endpoints[e].customPath.value
  }

  /** Every endpoint has a custom path holding neither token. */
  ghost predicate PlainPaths(endpoints: map<string, Scope>) {
    forall e :: e in endpoints ==>
      endpoints[e].customPath.Some? &&
      forall k: nat :: !MatchAt(endpoints[e].customPath.value, "subjectKey", k) && !MatchAt(endpoints[e].customPath.value, "pullCount", k)
  }

  /** Token-free paths resolve to themselves for every key and pull. */
  lemma PlainPathsFixed(endpoints: map<string, Scope>, subjectKey: string, keyPull: int)
    requires PlainPaths(endpoints)
    ensures FixedPaths(endpoints, subjectKey, keyPull)
  {
    forall e | e in endpoints
      ensures ResolvePath(endpoints[e].customPath.value, subjectKey, keyPull) == endpoints[e].customPath.value
    {
      ResolveWithoutTokens(endpoints[e].customPath.value, subjectKey, keyPull);
    }
  }

  /**
   * The ledger of `Add_Subject_Key`: each endpoint's custom path created in
   * turn; any failure is the one error. With every path fixed under
   * resolution nothing is built and the ledger is always made.
   */
  method BuildLedger(box: BoxClient, endpoints: map<string, Scope>, subjectKey: string, keyPull: int) returns (r: Result<Ledger>)
    requires box.Valid()
    modifies box`children, box`nextId
    ensures box.Valid() && Extends(old(box.State()), box.State())
    ensures r.Err? ==> r.message == "Error while building endpoints"
    ensures r.Ok? ==> FreshLedger(endpoints, subjectKey, keyPull, box.State(), r.value)
    ensures FixedPaths(endpoints, subjectKey, keyPull) ==> r.Ok? && box.State() == old(box.State())
  {
    var ledger: Ledger := map[];
    var remaining := endpoints.Keys;
    while remaining != {}
      invariant box.Valid() && Extends(old(box.State()), box.State())
      invariant remaining <= endpoints.Keys && ledger.Keys == endpoints.Keys - remaining
      invariant forall e :: e in ledger ==>
                  ledger[e].files == map[] && CustomizedScope(endpoints[e], subjectKey, keyPull, box.State(), ledger[e].scope)
      invariant FixedPaths(endpoints, subjectKey, keyPull) ==> box.State() == old(box.State())
      decreases remaining
    {
      var name :| name in remaining;
      ghost var before := box.State();
      var scope := CreateCustomPath(box, endpoints[name], subjectKey, keyPull);
      if scope.Err? {
        return Err("Error while building endpoints");
      }
      forall e | e in ledger
        ensures CustomizedScope(endpoints[e], subjectKey, keyPull, box.State(), ledger[e].scope)
      {
        CustomizedScopeExtends(endpoints[e], subjectKey, keyPull, before, box.State(), ledger[e].scope);
      }
      ExtendsTransitive(old(box.State()), before, box.State());
      ledger := ledger[name := EndpointState(scope.value, map[])];
      remaining := remaining - {name};
    }
    r := Ok(ledger);
  }

  /** The first check of `Add_Subject_Key` that fails, in the order the source makes them. */
  function KeyRejection(db: Database, relayName: string, draws: seq<real>): (e: Option<string>)
    requires ValidDraws(draws) && |draws| >= KeyLength * MaxAttempts
    reads db
    ensures e.None? <==>
      relayName in db.keyTables && relayName in db.relays &&
      db.relays[relayName].currentRelayPulls + 1 <= db.relays[relayName].maxRelayPulls &&
      exists j :: 0 <= j < MaxAttempts && Candidate(draws, j) !in db.keyTables[relayName].Keys
    ensures relayName !in db.keyTables ==> e == Some("relay table does not exist")
    ensures relayName in db.keyTables && relayName !in db.relays ==> e == Some("relay entry does not exist in Relays")
    ensures relayName in db.keyTables && relayName in db.relays &&
            db.relays[relayName].currentRelayPulls + 1 > db.relays[relayName].maxRelayPulls
            ==> e == Some("Access key out of uses")
    ensures relayName in db.keyTables && relayName in db.relays &&
            db.relays[relayName].currentRelayPulls + 1 <= db.relays[relayName].maxRelayPulls &&
            (forall j :: 0 <= j < MaxAttempts ==> Candidate(draws, j) in db.keyTables[relayName].Keys)
            ==> e == Some("Collision retry limit exceeded")
  {
    if relayName !in db.keyTables then Some("relay table does not exist")
    else if relayName !in db.relays then Some("relay entry does not exist in Relays")
    else if db.relays[relayName].currentRelayPulls + 1 > db.relays[relayName].maxRelayPulls then Some("Access key out of uses")
    else if FirstFree(db.keyTables[relayName].Keys, draws, 0).None? then Some("Collision retry limit exceeded")
    else None
  }

  /** When the first `i` candidates all collide, the first free one is searched for from the `i`-th on. */
  lemma {:induction false} FirstFreeSkipsCollisions(taken: set<string>, draws: seq<real>, i: nat)
    requires i <= MaxAttempts && ValidDraws(draws) && |draws| >= KeyLength * MaxAttempts
    requires forall j :: 0 <= j < i ==> Candidate(draws, j) in taken
    ensures FirstFree(taken, draws, 0) == FirstFree(taken, draws, i)
  {
    if i > 0 {
      FirstFreeSkipsCollisions(taken, draws, i - 1);
    }
  }

  /** The key-drawing loop of `Add_Subject_Key`: up to five candidates, the first one not yet in the relay's table. */
  method ChooseKey(table: map<string, SubjectKeyRecord>, draws: seq<real>) returns (found: Option<string>)
    requires ValidDraws(draws) && |draws| >= KeyLength * MaxAttempts
    ensures found == FirstFree(table.Keys, draws, 0)
  {
    found := None;
    var i := 0;
    while i < MaxAttempts && found.None?
      invariant 0 <= i <= MaxAttempts
      invariant found.None? ==> forall j :: 0 <= j < i ==> Candidate(draws, j) in table
      invariant found.Some? ==> found == FirstFree(table.Keys, draws, 0)
      decreases MaxAttempts - i
    {
      var randomKey := RandomNumberNDigits(KeyLength, draws[KeyLength * i..]);
      assert randomKey == Candidate(draws, i) by {
        assert draws[KeyLength * i..][..KeyLength] == draws[KeyLength * i..KeyLength * (i + 1)];
      }
      if randomKey !in table {
        FirstFreeSkipsCollisions(table.Keys, draws, i);
        found := Some(randomKey);
      }
      i := i + 1;
    }
  }

  /**
   * `Add_Subject_Key`: after the table, relay, quota and collision checks,
   * a fresh key with its ledger is stored under the relay's current pull
   * number, and the relay's pull counter goes up by one.
   */
  method AddSubjectKey(db: Database, box: BoxClient, relayName: string, metaData: string, draws: seq<real>)
    returns (r: Result<string>)
    requires box.Valid() && ValidDraws(draws) && |draws| >= KeyLength * MaxAttempts
    modifies db`relays, db`keyTables, box`children, box`nextId
    ensures box.Valid() && Extends(old(box.State()), box.State())
    ensures old(KeyRejection(db, relayName, draws)).Some? ==>
              r == Err(old(KeyRejection(db, relayName, draws)).value) && box.State() == old(box.State())
    ensures r.Err? ==> db.relays == old(db.relays) && db.keyTables == old(db.keyTables)
    ensures r.Ok? ==> (old(KeyRejection(db, relayName, draws)).None? &&
                       Some(r.value) == FirstFree(old(db.keyTables[relayName]).Keys, draws, 0))
    ensures r.Ok? ==>
      var relay := old(db.relays[relayName]);
      var table := old(db.keyTables[relayName]);
      r.value !in table &&
      relayName in db.keyTables && r.value in db.keyTables[relayName] &&
      var ledger := db.keyTables[relayName][r.value].uploadState;
      db.keyTables == old(db.keyTables)[relayName := table[r.value :=
                        SubjectKeyRecord(r.value, ledger, relay.currentRelayPulls, metaData)]] &&
      FreshLedger(relay.writeEndpoints, r.value, relay.currentRelayPulls, box.State(), ledger) &&
      db.relays == old(db.relays)[relayName := relay.(currentRelayPulls := relay.currentRelayPulls + 1)]
    ensures old(KeyRejection(db, relayName, draws)).None? && r.Err? ==> r.message == "Error while building endpoints"
    ensures old(KeyRejection(db, relayName, draws)).None? && PlainPaths(old(db.relays[relayName]).writeEndpoints) ==> r.Ok?
    ensures old(db.PullsWithinQuota()) ==> db.PullsWithinQuota()
  {
    var rejection := KeyRejection(db, relayName, draws);
    if rejection.Some? && rejection.value != "Collision retry limit exceeded" {
      return Err(rejection.value);
    }
    var relay := db.relays[relayName];
    var table := db.keyTables[relayName];
    var found := ChooseKey(table, draws);
    if found.None? {
      return Err("Collision retry limit exceeded");
    }
    var randomKey := found.value;
    if PlainPaths(relay.writeEndpoints) {
      PlainPathsFixed(relay.writeEndpoints, randomKey, relay.currentRelayPulls);
    }
    var ledger := BuildLedger(box, relay.writeEndpoints, randomKey, relay.currentRelayPulls);
    if ledger.Err? {
      return Err(ledger.message);
    }
    var record := SubjectKeyRecord(randomKey, ledger.value, relay.currentRelayPulls, metaData);
    db.keyTables := db.keyTables[relayName := table[randomKey := record]];
    RelayBase.IterateRelayParams(db, relayName);
    r := Ok(randomKey);
  }

  // ---------------------------------------------------------------------
  // Update_Subject_Key

  /** `Update_Subject_Key`: the key's stored record is replaced; a missing relay table is an error, a missing key a no-op. */
  method UpdateSubjectKey(db: Database, relayName: string, record: SubjectKeyRecord) returns (r: Result<bool>)
    modifies db`keyTables
    ensures relayName !in old(db.keyTables) <==> r == Err("Issue in updating key")
    ensures r.Err? <==> relayName !in old(db.keyTables)
    ensures r.Err? ==> db.keyTables == old(db.keyTables)
    ensures r.Ok? ==> (r.value &&
              db.keyTables == old(db.keyTables)[relayName :=
                if record.subjectKey in old(db.keyTables[relayName])
                then old(db.keyTables[relayName])[record.subjectKey := record]
                else old(db.keyTables[relayName])])
  {
    if relayName !in db.keyTables {
      return Err("Issue in updating key");
    }
    var table := db.keyTables[relayName];
    if record.subjectKey in table {
      db.keyTables := db.keyTables[relayName := table[record.subjectKey := record]];
    }
    r := Ok(true);
  }
}
