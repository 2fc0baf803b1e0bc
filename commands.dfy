/**
 * What the `list` and `purge` commands of cmd/likedtracks.go and cmd/playlists.go
 * take as plain inputs (their flags) and what they produce. File contents, the
 * remote API and `getClient` are inputs: their outcomes are parameters.
 */
module Commands {
  import opened Wrappers
  import opened ClientProvider
  import opened Purge

  /** The error a command's `RunE` returns. */
  datatype CmdError =
    | CsvRequired                         // "--csv argument is required"
    | ClientFailed(reason: ClientError)   // the error of getClient, returned as it is
    | ApiFailed(cause: string)            // a listing call failed
    | FileFailed(cause: string)           // reading, decoding or writing a file failed

  /** The `--json` and `--csv` flags of a list command ("" when absent). */
  datatype ListConf = ListConf(json: string, csv: string)

  /** The `--csv` and `--dryrun` flags of a purge command. */
  datatype PurgeConf = PurgeConf(csv: string, dryRun: bool)

  /** A list command's return value, and what it handed to the JSON and CSV writers. */
  datatype ListRun<T, R> = ListRun(result: Option<CmdError>, json: Option<seq<T>>, csv: Option<seq<R>>)

  /**
   * A purge command's return value and its effects: whether `getClient` was called, the IDs
   * marked for deletion, the progress bar, the tasks submitted and the errors logged.
   */
  datatype PurgeRun<T> = PurgeRun(
    result: Option<CmdError>, clientRequested: bool, toPurge: seq<string>,
    bar: Option<Progress>, submitted: seq<T>, logged: seq<Logged<T>>)
}
