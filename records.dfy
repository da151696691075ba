/**
 * The records the service stores and passes between its stages: relays,
 * endpoint scopes, subject keys and their upload ledgers, and the
 * key-value store that holds them.
 */
module Records {
  import opened Wrappers

  /** A Box item id. The account's root folder is 0; an id that was never set is `None` where it may be missing. */
  type Id = nat

  /**
   * The constraints and target folder of one write endpoint. `customPath` is
   * the path template a subject key consumes (`None` once consumed);
   * `fileCount` is the live count the upload pipeline keeps on the scope.
   */
  datatype Scope = Scope(
    fileTypes: seq<string>,
    maxFileSize: string,
    maxFiles: int,
    maxFileUpdates: int,
    boxRelativePath: string,
    customPath: Option<string>,
    boxFolderId: Option<Id>,
    boxFolderLink: Option<string>,
    fileCount: int)

  /** What the ledger knows of one uploaded file name. */
  datatype FileEntry = FileEntry(updateCount: int, fileId: Option<Id>)

  /** One endpoint of a subject key's `uploadState`. */
  datatype EndpointState = EndpointState(scope: Scope, files: map<string, FileEntry>)

  /** A subject key's `uploadState`: endpoint name to its scope and files. */
  type Ledger = map<string, EndpointState>

  /** A row of a relay's subject-key table. */
  datatype SubjectKeyRecord = SubjectKeyRecord(
    subjectKey: string,
    uploadState: Ledger,
    relayNumber: int,
    metaData: string)

  datatype BaseFolder = BaseFolder(
    path: string,
    rootId: Id,
    boxFolderId: Option<Id>,
    boxFolderLink: Option<string>)

  /** A row of the Relays table. */
  datatype Relay = Relay(
    relayName: string,
    repository: string,
    password: string,
    writeEndpoints: map<string, Scope>,
    baseFolder: BaseFolder,
    maxRelayPulls: int,
    currentRelayPulls: int,
    metaData: string,
    customPath: string)

  /**
   * The persistence layer: the Relays table keyed by relay name, and one
   * subject-key table per relay (named after it) keyed by subject key.
   * Stored JSON columns are held as values, so a write followed by a read
   * gives back what was written.
   */
  class Database {
    var relays: map<string, Relay>
    var keyTables: map<string, map<string, SubjectKeyRecord>>

    constructor ()
      ensures relays == map[] && keyTables == map[]
    {
      relays := map[];
      keyTables := map[];
    }

    /** No relay has issued more subject keys than its quota allows. */
    ghost predicate PullsWithinQuota()
      reads this
    {
      forall name :: name in relays ==> relays[name].currentRelayPulls <= relays[name].maxRelayPulls
    }
  }

  /** A file as the multipart parser describes it: the form field it came in, its name, and its size in bytes. */
  datatype UploadedFile = UploadedFile(fieldname: string, originalname: string, size: int)

  /** The credentials an upload request authenticated with. */
  datatype Keys = Keys(relayName: string, subjectKey: string)

  /**
   * An upload request as the middleware chain sees it: `keys`,
   * `fileInformation`, `failedFiles` and `subjectKeyData` are the values the
   * pipeline keeps in the application's locals, `files` is what the
   * multipart parser kept, by form field.
   */
  class UploadRequest {
    var keys: Option<Keys>
    var fileInformation: Ledger
    var failedFiles: map<string, string>
    var subjectKeyData: Option<SubjectKeyRecord>
    var files: map<string, seq<UploadedFile>>

    constructor ()
      ensures keys.None? && fileInformation == map[] && failedFiles == map[]
      ensures subjectKeyData.None? && files == map[]
    {
      keys := None;
      fileInformation := map[];
      failedFiles := map[];
      subjectKeyData := None;
      files := map[];
    }
  }
}
