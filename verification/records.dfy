/** The provider's records as the script reads them out of the JSON answers,
    one datatype per kind, keeping only the fields the script looks at. */
module Records {

  /** A C14 archive: `uuid_ref`, `$ref` (its API path), `name`, `status`,
      and `creation_date` as seconds since the epoch. */
  datatype Archive = Archive(uuidRef: string, ref: string, name: string, status: string, created: int)

  /** A storage location an archive can be unarchived to. */
  datatype Location = Location(uuidRef: string)

  /** An SSH key registered on the account. */
  datatype SshKey = SshKey(uuidRef: string, description: string)

  /** One way into a temporary bucket: a protocol name and a connection URI. */
  datatype Credential = Credential(protocol: string, uri: string)

  /** The temporary bucket open on an unarchived archive. */
  datatype Bucket = Bucket(uuidRef: string, credentials: seq<Credential>)
}

/** How a run ends.  `CriticalError` carries the data of the script's
    messages (a failed directory upload names the directory by its
    upper-cased key); `Propagate` is an `OnlineApiError` escaping to the
    top-level handler. */
module Errors {
  import Config

  datatype CriticalError =
    | LoginFailed
    | NoArchives
    | NoMatchingArchives
    | NotAllActive(status: string)
    | NoLocations(archive: string)
    | NoValidSshKeys
    | UnarchiveAlreadyRequested(archive: string)
    | UnarchiveStarted(archive: string)
    | SshNotConfigured(bucket: string)
    | InvalidSshUri(uri: string)
    | SyncFailed(directory: Config.Category, exitCode: int)
    | DumpFailed(exitCode: int)
    | DatabaseSyncFailed(exitCode: int)
    | MarkerSyncFailed(exitCode: int)

  datatype Verdict<+T> = Ready(value: T) | Fail(error: CriticalError) | Propagate(status: int)
}
