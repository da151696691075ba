/**
 * The relay registry: the defaults a new relay's endpoints and base folder
 * receive, the grouping of endpoints by their Box path, the binding of Box
 * folder ids and shared links, and the relay rows of the store.
 *
 * A value the caller may leave out is an `Option`; for strings and numbers
 * JavaScript's falsy values ("" and 0) count as left out, as the `x ? x : d`
 * tests of the service treat them.
 */
module RelayBase {
  import opened Wrappers
  import opened Strings
  import opened Records
  import opened BoxFiles

  predicate TruthyString(s: Option<string>) {
    s.Some? && s.value != ""
  }

  predicate TruthyInt(n: Option<int>) {
    n.Some? && n.value != 0
  }

  /** `s ? s : default` for a string. */
  function StringOr(s: Option<string>, default: string): (r: string)
    ensures r == default || TruthyString(s)
  {
    if TruthyString(s) then s.value else default
  }

  /** `n ? n : default` for a number. */
  function IntOr(n: Option<int>, default: int): (r: int)
    ensures r == default || TruthyInt(n)
  {
    if TruthyInt(n) then n.value else default
  }

  // ---------------------------------------------------------------------
  // Set_Write_Endpoints

  /** An endpoint as a caller supplies it; only these six fields are read. */
  datatype RawEndpoint = RawEndpoint(
    boxRelativePath: Option<string>,
    fileTypes: Option<seq<string>>,
    maxFileSize: Option<string>,
    maxFiles: Option<int>,
    maxFileUpdates: Option<int>,
    customPath: Option<string>)

  /** The endpoint every default fills in: ".csv" files up to "1mb", one file, one update, under "/data". */
  const DefaultScope: Scope := Scope([".csv"], "1mb", 1, 1, "/data", Some(""), None, None, 0)

  /** One endpoint with each left-out or falsy field replaced by its default; nothing else is carried over. */
  function WithDefaults(raw: RawEndpoint): (s: Scope)
    ensures TruthyString(raw.boxRelativePath) ==> s.boxRelativePath == raw.boxRelativePath.value
    ensures raw.fileTypes.Some? ==> s.fileTypes == raw.fileTypes.value
    ensures TruthyString(raw.maxFileSize) ==> s.maxFileSize == raw.maxFileSize.value
    ensures TruthyInt(raw.maxFiles) ==> s.maxFiles == raw.maxFiles.value
    ensures TruthyInt(raw.maxFileUpdates) ==> s.maxFileUpdates == raw.maxFileUpdates.value
    ensures s.boxRelativePath != "" && s.maxFileSize != "" && s.maxFiles != 0 && s.maxFileUpdates != 0
    ensures s.customPath.Some? && s.boxFolderId.None? && s.boxFolderLink.None?
  {
    Scope(
      if raw.fileTypes.Some? then raw.fileTypes.value else DefaultScope.fileTypes,
      StringOr(raw.maxFileSize, DefaultScope.maxFileSize),
      IntOr(raw.maxFiles, DefaultScope.maxFiles),
      IntOr(raw.maxFileUpdates, DefaultScope.maxFileUpdates),
      StringOr(raw.boxRelativePath, DefaultScope.boxRelativePath),
      Some(StringOr(raw.customPath, "")),
      None, None, 0)
  }

  /** An endpoint given with no usable field is exactly the default endpoint. */
  lemma EmptyEndpointIsDefault()
    ensures WithDefaults(RawEndpoint(None, None, None, None, None, None)) == DefaultScope
    ensures WithDefaults(RawEndpoint(Some(""), None, Some(""), Some(0), Some(0), Some(""))) == DefaultScope
  {
  }

  /** A scope handed back as caller input. */
  function AsRaw(s: Scope): RawEndpoint {
    RawEndpoint(Some(s.boxRelativePath), Some(s.fileTypes), Some(s.maxFileSize), Some(s.maxFiles),
                Some(s.maxFileUpdates), s.customPath)
  }

  /** Filling in defaults twice is filling them in once. */
  lemma WithDefaultsIdempotent(raw: RawEndpoint)
    ensures WithDefaults(AsRaw(WithDefaults(raw))) == WithDefaults(raw)
  {
  }

  /**
   * `Set_Write_Endpoints`: with no endpoint object, the single "data"
   * endpoint; otherwise every endpoint name is kept and its value replaced
   * by the defaulted one.
   */
  method SetWriteEndpoints(endpoints: Option<map<string, RawEndpoint>>) returns (r: map<string, Scope>)
    ensures endpoints.None? ==> r == map["data" := DefaultScope]
    ensures endpoints.Some? ==> r.Keys == endpoints.value.Keys
    ensures endpoints.Some? ==> forall k :: k in r ==> r[k] == WithDefaults(endpoints.value[k])
  {
    if endpoints.None? {
      return map["data" := DefaultScope];
    }
    var given := endpoints.value;
    var remaining := given.Keys;
    r := map[];
    while remaining != {}
      invariant remaining <= given.Keys
      invariant r.Keys == given.Keys - remaining
      invariant forall k :: k in r ==> r[k] == WithDefaults(given[k])
      decreases remaining
    {
      var key :| key in remaining;
      r := r[key := WithDefaults(given[key])];
      remaining := remaining - {key};
    }
  }

  // ---------------------------------------------------------------------
  // Set_Base_Folder

  datatype RawBaseFolder = RawBaseFolder(path: Option<string>, rootId: Option<Id>)

  /** `Set_Base_Folder`: the path defaults to "/" and the root id to 0, each on its own. */
  function SetBaseFolder(raw: Option<RawBaseFolder>): (b: BaseFolder)
    ensures raw.None? ==> b == BaseFolder("/", 0, None, None)
    ensures raw.Some? ==> b.path == StringOr(raw.value.path, "/")
    ensures raw.Some? ==> b.rootId == raw.value.rootId.GetOr(0)
    ensures b.path != "" && b.boxFolderId.None? && b.boxFolderLink.None?
  {
    if raw.None? then BaseFolder("/", 0, None, None)
    else BaseFolder(StringOr(raw.value.path, "/"), raw.value.rootId.GetOr(0), None, None)
  }

  // ---------------------------------------------------------------------
  // Get_Paths_From_Endpoints

  predicate NoDuplicates(names: seq<string>) {
    forall i, j :: 0 <= i < j < |names| ==> names[i] != names[j]
  }

  lemma NoDuplicatesAppend(names: seq<string>, name: string)
    requires NoDuplicates(names) && name !in names
    ensures NoDuplicates(names + [name])
  {
  }

  /**
   * `Get_Paths_From_Endpoints`: endpoint names grouped by Box path. Every
   * path in use is a key, and a name is in a path's group exactly when that
   * is its endpoint's path, once.
   */
  method GetPathsFromEndpoints(endpoints: map<string, Scope>) returns (groups: map<string, seq<string>>)
    ensures groups.Keys == set n | n in endpoints :: endpoints[n].boxRelativePath
    ensures forall p, n :: p in groups ==> (n in groups[p] <==> n in endpoints && endpoints[n].boxRelativePath == p)
    ensures forall p :: p in groups ==> NoDuplicates(groups[p])
  {
    var remaining := endpoints.Keys;
    ghost var done: set<string> := {};
    groups := map[];
    while remaining != {}
      invariant remaining !! done && remaining + done == endpoints.Keys
      invariant groups.Keys == set n | n in done :: endpoints[n].boxRelativePath
      invariant forall p, n :: p in groups ==> (n in groups[p] <==> n in done && endpoints[n].boxRelativePath == p)
      invariant forall p :: p in groups ==> NoDuplicates(groups[p])
      decreases remaining
    {
      var name :| name in remaining;
      var path := endpoints[name].boxRelativePath;
      if path !in groups {
        groups := groups[path := [name]];
      } else {
        assert name !in groups[path];
        NoDuplicatesAppend(groups[path], name);
        groups := groups[path := groups[path] + [name]];
      }
      remaining := remaining - {name};
      done := done + {name};
    }
  }

  /** `Object.keys` of a dictionary: its keys, each once, in some order. */
  method KeysOf<V>(m: map<string, V>) returns (keys: seq<string>)
    ensures forall k :: k in keys <==> k in m
    ensures NoDuplicates(keys)
  {
    var remaining := m.Keys;
    keys := [];
    while remaining != {}
      invariant remaining <= m.Keys
      invariant forall k :: k in keys <==> k in m.Keys - remaining
      invariant NoDuplicates(keys)
      decreases remaining
    {
      var key :| key in remaining;
      NoDuplicatesAppend(keys, key);
      keys := keys + [key];
      remaining := remaining - {key};
    }
  }

  // ---------------------------------------------------------------------
  // Build_Box_Folders

  /**
   * The relay's folders are bound in storage state `st`: the base folder id
   * is where the base path leads from the root, and every endpoint's id is
   * where its path leads from the base folder.
   */
  predicate FoldersBound(st: Store, relay: Relay) {
    relay.baseFolder.boxFolderId.Some? &&
    Locate(st, relay.baseFolder.rootId, relay.baseFolder.path) == relay.baseFolder.boxFolderId &&
    forall n :: n in relay.writeEndpoints ==>
      relay.writeEndpoints[n].boxFolderId.Some? &&
      Locate(st, relay.baseFolder.boxFolderId.value, relay.writeEndpoints[n].boxRelativePath) == relay.writeEndpoints[n].boxFolderId
  }

  /** Endpoints that share a Box path are bound to the same folder. */
  lemma SharedPathSameFolder(st: Store, relay: Relay, n1: string, n2: string)
    requires FoldersBound(st, relay)
    requires n1 in relay.writeEndpoints && n2 in relay.writeEndpoints
    requires relay.writeEndpoints[n1].boxRelativePath == relay.writeEndpoints[n2].boxRelativePath
    ensures relay.writeEndpoints[n1].boxFolderId == relay.writeEndpoints[n2].boxFolderId
  {
  }

  /** Bindings survive later growth of storage: folders are never moved or removed. */
  lemma FoldersBoundExtends(st1: Store, st2: Store, relay: Relay)
    requires FoldersBound(st1, relay) && Extends(st1, st2)
    ensures FoldersBound(st2, relay)
  {
    LocateExtends(st1, st2, relay.baseFolder.rootId, relay.baseFolder.path);
    forall n | n in relay.writeEndpoints
      ensures Locate(st2, relay.baseFolder.boxFolderId.value, relay.writeEndpoints[n].boxRelativePath)
           == relay.writeEndpoints[n].boxFolderId
    {
      LocateExtends(st1, st2, relay.baseFolder.boxFolderId.value, relay.writeEndpoints[n].boxRelativePath);
    }
  }

  /** `relay2` is `relay1` with folder ids set, and nothing else changed. */
  predicate OnlyFolderIdsSet(relay1: Relay, relay2: Relay) {
    relay2 == relay1.(baseFolder := relay2.baseFolder, writeEndpoints := relay2.writeEndpoints) &&
    relay2.baseFolder == relay1.baseFolder.(boxFolderId := relay2.baseFolder.boxFolderId) &&
    relay2.writeEndpoints.Keys == relay1.writeEndpoints.Keys &&
    forall n :: n in relay2.writeEndpoints ==>
      relay2.writeEndpoints[n] == relay1.writeEndpoints[n].(boxFolderId := relay2.writeEndpoints[n].boxFolderId)
  }

  /** Every endpoint named in `names` gets folder `id`; the others are left as they are. */
  method BindGroup(endpoints: map<string, Scope>, names: seq<string>, id: Id) returns (r: map<string, Scope>)
    requires forall j :: 0 <= j < |names| ==> names[j] in endpoints
    ensures r.Keys == endpoints.Keys
    ensures forall n :: n in r ==> r[n] == if n in names then endpoints[n].(boxFolderId := Some(id)) else endpoints[n]
  {
    r := endpoints;
    var i := 0;
    while i < |names|
      invariant 0 <= i <= |names|
      invariant r.Keys == endpoints.Keys
      invariant forall n :: n in r ==> r[n] == if n in names[..i] then endpoints[n].(boxFolderId := Some(id)) else endpoints[n]
    {
      r := r[names[i] := endpoints[names[i]].(boxFolderId := Some(id))];
      assert names[..i + 1] == names[..i] + [names[i]];
      i := i + 1;
    }
    assert names[..i] == names;
  }

  /** Every endpoint gets the folder made for its path, through the path's group of names. */
  method BindEndpoints(endpoints: map<string, Scope>, groups: map<string, seq<string>>, folders: map<string, Id>)
    returns (r: map<string, Scope>)
    requires folders.Keys == groups.Keys
    requires forall p, n :: p in groups ==> (n in groups[p] <==> n in endpoints && endpoints[n].boxRelativePath == p)
    requires forall n :: n in endpoints ==> endpoints[n].boxRelativePath in groups
    ensures r.Keys == endpoints.Keys
    ensures forall n :: n in r ==> r[n] == endpoints[n].(boxFolderId := Some(folders[endpoints[n].boxRelativePath]))
  {
    var remaining := folders.Keys;
    r := endpoints;
    while remaining != {}
      invariant remaining <= folders.Keys
      invariant r.Keys == endpoints.Keys
      invariant forall n :: n in r ==>
                  r[n] == if endpoints[n].boxRelativePath in remaining then endpoints[n]
                          else endpoints[n].(boxFolderId := Some(folders[endpoints[n].boxRelativePath]))
      decreases remaining
    {
      var path :| path in remaining;
      r := BindGroup(r, groups[path], folders[path]);
      remaining := remaining - {path};
    }
  }

  /**
   * `Build_Box_Folders`: the base path is built from the root id, each
   * distinct endpoint path from the base folder, and the ids are written
   * into the relay's base folder and into every endpoint of each path's group.
   */
  method BuildBoxFolders(box: BoxClient, relay: Relay) returns (r: Result<Relay>)
    requires box.Valid()
    modifies box`children, box`nextId
    ensures box.Valid() && Extends(old(box.State()), box.State())
    ensures r.Err? ==> r.message == FolderError
    ensures r.Ok? ==> FoldersBound(box.State(), r.value) && OnlyFolderIdsSet(relay, r.value)
  {
    ghost var before := box.State();
    var groups := GetPathsFromEndpoints(relay.writeEndpoints);
    var paths := KeysOf(groups);
    var made := box.MakeDataFolders(relay.baseFolder.rootId, relay.baseFolder.path, paths);
    if made.Err? {
      return Err(made.message);
    }
    var bound := BindFolders(relay, groups, paths, made.value, before, box.State());
    r := Ok(bound);
  }

  /** The ids `Make_Data_Folders` reported, written into the relay: the base id and, through each path's group, every endpoint's id. */
  method BindFolders(relay: Relay, groups: map<string, seq<string>>, paths: seq<string>, locations: Locations,
                     ghost st0: Store, ghost st1: Store) returns (bound: Relay)
    requires WellFormed(st0)
    requires groups.Keys == set n | n in relay.writeEndpoints :: relay.writeEndpoints[n].boxRelativePath
    requires forall p, n :: p in groups ==>
               (n in groups[p] <==> n in relay.writeEndpoints && relay.writeEndpoints[n].boxRelativePath == p)
    requires forall p :: p in paths <==> p in groups
    requires DataFolders(st0, relay.baseFolder.rootId, relay.baseFolder.path, paths) == (Ok(locations), st1)
    ensures FoldersBound(st1, bound) && OnlyFolderIdsSet(relay, bound)
  {
    DataFoldersLocated(st0, relay.baseFolder.rootId, relay.baseFolder.path, paths);
    assert locations.subtrees.Keys == groups.Keys;
    forall n | n in relay.writeEndpoints ensures relay.writeEndpoints[n].boxRelativePath in groups {
      assert n in groups[relay.writeEndpoints[n].boxRelativePath] || true;
    }
    var endpoints := BindEndpoints(relay.writeEndpoints, groups, locations.subtrees);
    BindingBindsFolders(st1, relay, locations.basetree[relay.baseFolder.path], locations.subtrees, endpoints);
    var baseFolder := relay.baseFolder.(boxFolderId := Some(locations.basetree[relay.baseFolder.path]));
    bound := relay.(baseFolder := baseFolder, writeEndpoints := endpoints);
  }

  /** Writing the located ids into the relay binds its folders and changes nothing else. */
  lemma BindingBindsFolders(st: Store, relay: Relay, baseId: Id, folders: map<string, Id>, endpoints: map<string, Scope>)
    requires Locate(st, relay.baseFolder.rootId, relay.baseFolder.path) == Some(baseId)
    requires forall s :: s in folders ==> Locate(st, baseId, s) == Some(folders[s])
    requires forall n :: n in relay.writeEndpoints ==> relay.writeEndpoints[n].boxRelativePath in folders
    requires endpoints.Keys == relay.writeEndpoints.Keys
    requires forall n :: n in endpoints ==>
               endpoints[n] == relay.writeEndpoints[n].(boxFolderId := Some(folders[relay.writeEndpoints[n].boxRelativePath]))
    ensures var bound := relay.(baseFolder := relay.baseFolder.(boxFolderId := Some(baseId)), writeEndpoints := endpoints);
            FoldersBound(st, bound) && OnlyFolderIdsSet(relay, bound)
  {
  }

  // ---------------------------------------------------------------------
  // Shared links

  /** The JavaScript values the link tests compare. */
  datatype JsValue = JsBool(b: bool) | JsString(s: string)

  predicate Truthy(v: JsValue) {
    match v
    case JsBool(b) => b
    case JsString(s) => s != ""
  }

  /** `===`: values of different types are never equal. */
  predicate StrictEquals(a: JsValue, b: JsValue) {
    a == b
  }

  /** A folder id as Box reports it, a decimal string. */
  function IdValue(id: Id): JsValue {
    JsString(NatToString(id))
  }

  /** The endpoint test `!(boxFolderId === "0")`: a link is made for every folder except the account root. */
  predicate MakesLink(id: Id) {
    !StrictEquals(IdValue(id), JsString("0"))
  }

  /** The base-folder test as written, `! boxFolderId === "0"`: `!` binds first, so a boolean is compared with a string. */
  predicate MakesBaseLinkAsWritten(id: Id) {
    StrictEquals(JsBool(!Truthy(IdValue(id))), JsString("0"))
  }

  /** A link is made exactly for the folders other than the root. */
  lemma MakesLinkIff(id: Id)
    ensures MakesLink(id) <==> id != 0
  {
    if id >= 10 {
      assert |NatToString(id)| >= 2 by {
        assert NatToString(id) == NatToString(id / 10) + [DigitChar(id % 10)];
      }
    }
  }

  /** As written the base-folder test never holds, so the base folder of a relay never gets a link. */
  lemma BaseLinkNeverMadeAsWritten(id: Id)
    ensures !MakesBaseLinkAsWritten(id)
  {
  }

  /** Folder 7 is not the root, yet the test as written makes no link for it. */
  lemma BaseLinkMissedAsWritten()
    ensures MakesLink(7) && !MakesBaseLinkAsWritten(7)
  {
    MakesLinkIff(7);
  }

  /** The link a folder is given: "unavailable" for the root, the shared link otherwise. */
  function LinkFor(id: Id): (link: string)
    ensures link == Unavailable <==> id == 0
  {
    MakesLinkIff(id);
    if MakesLink(id) then SharedLink(id) else Unavailable
  }

  /** Every folder of the relay carries the link its id calls for. */
  predicate LinksAssigned(relay: Relay) {
    relay.baseFolder.boxFolderId.Some? &&
    relay.baseFolder.boxFolderLink == Some(LinkFor(relay.baseFolder.boxFolderId.value)) &&
    forall n :: n in relay.writeEndpoints ==>
      relay.writeEndpoints[n].boxFolderId.Some? &&
      relay.writeEndpoints[n].boxFolderLink == Some(LinkFor(relay.writeEndpoints[n].boxFolderId.value))
  }

  /** An endpoint's link is "unavailable" exactly when its folder is the account root. */
  lemma UnavailableIffRoot(relay: Relay, n: string)
    requires LinksAssigned(relay) && n in relay.writeEndpoints
    ensures relay.writeEndpoints[n].boxFolderLink == Some(Unavailable) <==> relay.writeEndpoints[n].boxFolderId == Some(0)
  {
  }

  /** `relay2` is `relay1` with links set, and nothing else changed. */
  predicate OnlyLinksSet(relay1: Relay, relay2: Relay) {
    relay2 == relay1.(baseFolder := relay2.baseFolder, writeEndpoints := relay2.writeEndpoints) &&
    relay2.baseFolder == relay1.baseFolder.(boxFolderLink := relay2.baseFolder.boxFolderLink) &&
    relay2.writeEndpoints.Keys == relay1.writeEndpoints.Keys &&
    forall n :: n in relay2.writeEndpoints ==>
      relay2.writeEndpoints[n] == relay1.writeEndpoints[n].(boxFolderLink := relay2.writeEndpoints[n].boxFolderLink)
  }

  /** One folder's link: the shared link unless the folder is the root; a missing id fails like a failed Box call. */
  method LinkFolder(box: BoxClient, id: Option<Id>) returns (r: Result<string>)
    ensures id.Some? && id.value in box.children ==> r == Ok(LinkFor(id.value))
    ensures id.Some? && id.value == 0 ==> r == Ok(Unavailable)
    ensures r.Ok? ==> id.Some? && r.value == LinkFor(id.value)
  {
    if id.None? {
      return Err("Failed to make link");
    }
    MakesLinkIff(id.value);
    if MakesLink(id.value) {
      r := box.MakeDownloadLink(id.value);
    } else {
      r := Ok(Unavailable);
    }
  }

  /**
   * The link assignment of `Add_Relay` with the base-folder test corrected:
   * the base folder and then every endpoint get the link their ids call for.
   */
  method AssignLinks(box: BoxClient, relay: Relay) returns (r: Result<Relay>)
    ensures r.Ok? ==> LinksAssigned(r.value) && OnlyLinksSet(relay, r.value)
    ensures relay.baseFolder.boxFolderId.Some? && relay.baseFolder.boxFolderId.value in box.children &&
            (forall n :: n in relay.writeEndpoints ==>
               relay.writeEndpoints[n].boxFolderId.Some? && relay.writeEndpoints[n].boxFolderId.value in box.children)
            ==> r.Ok?
  {
    var baseLink := LinkFolder(box, relay.baseFolder.boxFolderId);
    if baseLink.Err? {
      return Err(baseLink.message);
    }
    var endpoints := relay.writeEndpoints;
    var remaining := endpoints.Keys;
    while remaining != {}
      invariant remaining <= relay.writeEndpoints.Keys
      invariant endpoints.Keys == relay.writeEndpoints.Keys
      invariant forall n :: n in endpoints ==>
                  endpoints[n] == relay.writeEndpoints[n].(boxFolderLink := endpoints[n].boxFolderLink)
      invariant forall n :: n in endpoints && n !in remaining ==>
                  endpoints[n].boxFolderId.Some? && endpoints[n].boxFolderLink == Some(LinkFor(endpoints[n].boxFolderId.value))
      decreases remaining
    {
      var name :| name in remaining;
      var link := LinkFolder(box, endpoints[name].boxFolderId);
      if link.Err? {
        return Err(link.message);
      }
      endpoints := endpoints[name := endpoints[name].(boxFolderLink := Some(link.value))];
      remaining := remaining - {name};
    }
    r := Ok(relay.(baseFolder := relay.baseFolder.(boxFolderLink := Some(baseLink.value)), writeEndpoints := endpoints));
  }

  /** The base-folder link as the source assigns it: always "unavailable". */
  function BaseLinkAsWritten(id: Id): (link: string)
    ensures link == Unavailable
  {
    BaseLinkNeverMadeAsWritten(id);
    if MakesBaseLinkAsWritten(id) then SharedLink(id) else Unavailable
  }

  /** For any folder other than the root the as-written base link differs from the link it was meant to get. */
  lemma BaseLinkAsWrittenWrong(id: Id)
    requires id != 0
    ensures BaseLinkAsWritten(id) != LinkFor(id)
  {
  }

  // ---------------------------------------------------------------------
  // Add_Relay

  /** A relay as a caller supplies it. */
  datatype RelayParams = RelayParams(
    relayName: Option<string>,
    repository: Option<string>,
    password: Option<string>,
    writeEndpoints: Option<map<string, RawEndpoint>>,
    baseFolder: Option<RawBaseFolder>,
    maxRelayPulls: Option<int>,
    metaData: Option<string>,
    customPath: Option<string>)

  /** The first check of `Add_Relay` that fails, in the order the source makes them. */
  function RelayRejection(relays: map<string, Relay>, params: RelayParams): (e: Option<string>)
    ensures e.None? <==> TruthyString(params.relayName) && TruthyString(params.repository) && params.relayName.value !in relays
    ensures !TruthyString(params.relayName) ==> e == Some("No relay name specified")
    ensures TruthyString(params.relayName) && !TruthyString(params.repository) ==> e == Some("No repository specified")
  {
    if !TruthyString(params.relayName) then Some("No relay name specified")
    else if !TruthyString(params.repository) then Some("No repository specified")
    else if params.relayName.value in relays then Some("Relay already exists")
    else None
  }

  /** The stored row's own fields, before any folder is bound. */
  predicate FreshRelayFields(params: RelayParams, relay: Relay) {
    params.relayName.Some? &&
    relay.relayName == params.relayName.value &&
    relay.repository == StringOr(params.repository, "") &&
    relay.password == StringOr(params.password, "") &&
    relay.maxRelayPulls == IntOr(params.maxRelayPulls, 1) &&
    relay.currentRelayPulls == 0 &&
    relay.metaData == StringOr(params.metaData, "") &&
    relay.customPath == StringOr(params.customPath, "/") &&
    relay.baseFolder.path == SetBaseFolder(params.baseFolder).path &&
    relay.baseFolder.rootId == SetBaseFolder(params.baseFolder).rootId
  }

  /** The endpoints a caller's input defaults to, as `Set_Write_Endpoints` produces them. */
  predicate DefaultedFrom(given: Option<map<string, RawEndpoint>>, endpoints: map<string, Scope>) {
    if given.None? then endpoints == map["data" := DefaultScope]
    else endpoints.Keys == given.value.Keys && forall n :: n in endpoints ==> endpoints[n] == WithDefaults(given.value[n])
  }

  /**
   * The row `Add_Relay` stores for `params` once storage is in state `st`:
   * its own fields defaulted, every endpoint the defaulted one with its
   * folder bound and its link set, and the base folder likewise.
   */
  ghost predicate StoredRelay(params: RelayParams, st: Store, relay: Relay) {
    FreshRelayFields(params, relay) &&
    FoldersBound(st, relay) &&
    LinksAssigned(relay) &&
    exists defaulted: map<string, Scope> :: DefaultedFrom(params.writeEndpoints, defaulted) &&
      relay.writeEndpoints.Keys == defaulted.Keys &&
      forall n :: n in defaulted ==>
        relay.writeEndpoints[n] == defaulted[n].(boxFolderId := relay.writeEndpoints[n].boxFolderId,
                                                 boxFolderLink := relay.writeEndpoints[n].boxFolderLink)
  }

  const AddRelayError := "Issue when adding relay"

  /** The row of `Add_Relay` with its defaults, folders and links; any Box failure is the one relay error. */
  method PrepareRelay(box: BoxClient, params: RelayParams) returns (r: Result<Relay>)
    requires box.Valid() && TruthyString(params.relayName) && TruthyString(params.repository)
    modifies box`children, box`nextId
    ensures box.Valid() && Extends(old(box.State()), box.State())
    ensures r.Err? ==> r.message == AddRelayError
    ensures r.Ok? ==> StoredRelay(params, box.State(), r.value)
  {
    var endpoints := SetWriteEndpoints(params.writeEndpoints);
    var relayForDb := Relay(
      params.relayName.value,
      params.repository.value,
      StringOr(params.password, ""),
      endpoints,
      SetBaseFolder(params.baseFolder),
      IntOr(params.maxRelayPulls, 1),
      0,
      StringOr(params.metaData, ""),
      StringOr(params.customPath, "/"));
    var built := BuildBoxFolders(box, relayForDb);
    if built.Err? {
      return Err(AddRelayError);
    }
    var linked := AssignLinks(box, built.value);
    if linked.Err? {
      return Err(AddRelayError);
    }
    assert DefaultedFrom(params.writeEndpoints, endpoints);
    r := Ok(linked.value);
  }

  /**
   * `Add_Relay` with the base-folder link test corrected: validation, the
   * row with its defaults, the Box folders and links, the row inserted and
   * the relay's subject-key table created if it does not exist.
   */
  method AddRelay(db: Database, box: BoxClient, params: RelayParams) returns (r: Result<bool>)
    requires box.Valid()
    modifies db, box`children, box`nextId
    ensures box.Valid() && Extends(old(box.State()), box.State())
    ensures RelayRejection(old(db.relays), params).Some? ==>
              r == Err(RelayRejection(old(db.relays), params).value) && box.State() == old(box.State())
    ensures r.Err? ==> db.relays == old(db.relays) && db.keyTables == old(db.keyTables)
    ensures r.Ok? ==> r.value && RelayRejection(old(db.relays), params).None?
    ensures r.Ok? ==>
      var name := params.relayName.value;
      name in db.relays && db.relays == old(db.relays)[name := db.relays[name]] &&
      StoredRelay(params, box.State(), db.relays[name]) &&
      db.keyTables == (if name in old(db.keyTables) then old(db.keyTables) else old(db.keyTables)[name := map[]])
    ensures r.Ok? && old(db.PullsWithinQuota()) && IntOr(params.maxRelayPulls, 1) >= 0 ==> db.PullsWithinQuota()
  {
    var rejection := RelayRejection(db.relays, params);
    if rejection.Some? {
      return Err(rejection.value);
    }
    var name := params.relayName.value;
    var stored := PrepareRelay(box, params);
    if stored.Err? {
      return Err(stored.message);
    }
    db.relays := db.relays[name := stored.value];
    if name !in db.keyTables {
      db.keyTables := db.keyTables[name := map[]];
    }
    r := Ok(true);
  }

  // ---------------------------------------------------------------------
  // Update_Relay_Params and Iterate_Relay_Params

  /** The fields of a relay update; a present field is `Some`. */
  datatype RelayUpdate = RelayUpdate(
    relayName: Option<string>,
    repository: Option<string>,
    password: Option<string>,
    writeEndpoints: Option<map<string, Scope>>,
    baseFolder: Option<BaseFolder>,
    maxRelayPulls: Option<int>,
    currentRelayPulls: Option<int>,
    metaData: Option<string>,
    customPath: Option<string>)

  /** The row with the update's present fields written over it; the relay name is never among them. */
  function Merge(relay: Relay, u: RelayUpdate): (merged: Relay)
    ensures merged.relayName == relay.relayName
  {
    relay.(
      repository := u.repository.GetOr(relay.repository),
      password := u.password.GetOr(relay.password),
      writeEndpoints := u.writeEndpoints.GetOr(relay.writeEndpoints),
      baseFolder := u.baseFolder.GetOr(relay.baseFolder),
      maxRelayPulls := u.maxRelayPulls.GetOr(relay.maxRelayPulls),
      currentRelayPulls := u.currentRelayPulls.GetOr(relay.currentRelayPulls),
      metaData := u.metaData.GetOr(relay.metaData),
      customPath := u.customPath.GetOr(relay.customPath))
  }

  /**
   * The UPDATE statement is built from the fields as text: with no field
   * besides the name the SET list is empty, and an object-valued field is
   * written as "[object Object]"; either way the statement is rejected.
   */
  predicate UpdateStatementFails(u: RelayUpdate) {
    (u.repository.None? && u.password.None? && u.writeEndpoints.None? && u.baseFolder.None? &&
     u.maxRelayPulls.None? && u.currentRelayPulls.None? && u.metaData.None? && u.customPath.None?) ||
    u.writeEndpoints.Some? || u.baseFolder.Some?
  }

  /** `Update_Relay_Params`: the named row, if there is one, gets the update's fields; its name stays. */
  method UpdateRelayParams(db: Database, u: RelayUpdate) returns (r: Result<bool>)
    modifies db`relays
    ensures !TruthyString(u.relayName) ==> r == Err("No relay name specified")
    ensures TruthyString(u.relayName) && UpdateStatementFails(u) ==> r == Err("Issue in updating key")
    ensures r.Err? ==> db.relays == old(db.relays)
    ensures r.Ok? ==> r.value && TruthyString(u.relayName) && !UpdateStatementFails(u)
    ensures r.Ok? ==> db.relays.Keys == old(db.relays).Keys
    ensures r.Ok? ==> forall n :: n in db.relays ==>
              db.relays[n] == if n == u.relayName.value then Merge(old(db.relays)[n], u) else old(db.relays)[n]
  {
    if !TruthyString(u.relayName) {
      return Err("No relay name specified");
    }
    if UpdateStatementFails(u) {
      return Err("Issue in updating key");
    }
    var name := u.relayName.value;
    if name in db.relays {
      db.relays := db.relays[name := Merge(db.relays[name], u)];
    }
    r := Ok(true);
  }

  /** `Iterate_Relay_Params`: the named relay's pull counter goes up by exactly one; nothing else changes. */
  method IterateRelayParams(db: Database, relayName: string)
    modifies db`relays
    ensures relayName in old(db.relays) ==>
              db.relays == old(db.relays)[relayName := old(db.relays)[relayName].(
                currentRelayPulls := old(db.relays)[relayName].currentRelayPulls + 1)]
    ensures relayName !in old(db.relays) ==> db.relays == old(db.relays)
  {
    if relayName in db.relays {
      db.relays := db.relays[relayName := db.relays[relayName].(currentRelayPulls := db.relays[relayName].currentRelayPulls + 1)];
    }
  }
}
