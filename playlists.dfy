/** cmd/playlists.go: `playlists list` and `playlists purge`. */
module Playlists {
  import opened Wrappers
  import opened Sequences
  import opened Paging
  import opened Purge
  import opened ClientProvider
  import opened Commands

  /** The fields of a playlist the command reads; `ownerId` is `Owner.ID`. */
  datatype Playlist = Playlist(id: string, name: string, ownerId: string)

  /** `playlistRow`, one CSV line. */
  datatype PlaylistRow = PlaylistRow(id: string, name: string, owner: string, delete: bool)

  /** The projection loop of cmd/playlists.go:98-105: one row per playlist, in order. */
  method PlaylistRows(playlists: seq<Playlist>) returns (rows: seq<PlaylistRow>)
    ensures |rows| == |playlists|
    ensures forall i :: 0 <= i < |playlists| ==>
      rows[i].id == playlists[i].id && rows[i].name == playlists[i].name &&
      rows[i].owner == playlists[i].ownerId && !rows[i].delete
  {
    var buf := new PlaylistRow[|playlists|];
    for i := 0 to |playlists|
      invariant forall k :: 0 <= k < i ==> buf[k] == PlaylistRow(playlists[k].id, playlists[k].name, playlists[k].ownerId, false)
    {
      var playlist := playlists[i];
      buf[i] := PlaylistRow(playlist.id, playlist.name, playlist.ownerId, false);
    }
    rows := buf[..];
  }

  /**
   * `listPlaylistCmd`: `first` is what `CurrentUsersPlaylists` returned, `next` the `NextPage`
   * outcomes in call order, `jsonWrite` and `csvWrite` how writing the files ended.
   */
  method ListPlaylists(conf: ListConf, client: Result<Client, ClientError>, first: Result<seq<Playlist>, string>,
                       next: seq<NextPage<Playlist>>, jsonWrite: Option<string>, csvWrite: Option<string>)
    returns (run: ListRun<Playlist, PlaylistRow>)
    requires Ends(next)
    ensures client.Failure? ==> run == ListRun(Some(ClientFailed(client.error)), None, None)
    ensures client.Success? && first.Failure? ==> run == ListRun(Some(ApiFailed(first.error)), None, None)
    ensures client.Success? && first.Success? && next[StopAt(next)].PageFailed? ==>
      run == ListRun(Some(ApiFailed(next[StopAt(next)].cause)), None, None)
    ensures run.json.Some? ==>
      conf.json != "" && client.Success? && first.Success? && next[StopAt(next)].NoMorePages? &&
      run.json.value == first.value + Flatten(PageItems(next[..StopAt(next)]))
    ensures run.csv.Some? ==>
      conf.csv != "" && (conf.json == "" || jsonWrite.None?) &&
      client.Success? && first.Success? && next[StopAt(next)].NoMorePages? &&
      var playlists := first.value + Flatten(PageItems(next[..StopAt(next)]));
      |run.csv.value| == |playlists| &&
      forall i :: 0 <= i < |playlists| ==>
        run.csv.value[i] == PlaylistRow(playlists[i].id, playlists[i].name, playlists[i].ownerId, false)
    ensures run.result.None? <==>
      client.Success? && first.Success? && next[StopAt(next)].NoMorePages? &&
      (conf.json == "" || jsonWrite.None?) && (conf.csv == "" || csvWrite.None?)
    ensures run.result.None? ==> (run.json.Some? <==> conf.json != "") && (run.csv.Some? <==> conf.csv != "")
  {
    if client.Failure? {
      return ListRun(Some(ClientFailed(client.error)), None, None);
    }
    if first.Failure? {
      return ListRun(Some(ApiFailed(first.error)), None, None);
    }
    var playlists := CollectPages(first.value, next);
    if playlists.Failure? {
      return ListRun(Some(ApiFailed(playlists.error)), None, None);
    }

    var json: Option<seq<Playlist>> := None;
    if conf.json != "" {
      json := Some(playlists.value);
      if jsonWrite.Some? {
        return ListRun(Some(FileFailed(jsonWrite.value)), json, None);
      }
    }

    var csv: Option<seq<PlaylistRow>> := None;
    if conf.csv != "" {
      var rows := PlaylistRows(playlists.value);
      csv := Some(rows);
      if csvWrite.Some? {
        return ListRun(Some(FileFailed(csvWrite.value)), json, csv);
      }
    }
    return ListRun(None, json, csv);
  }

  function IsMarked(row: PlaylistRow): bool {
    row.delete
  }

  function RowId(row: PlaylistRow): string {
    row.id
  }

  /**
   * `purgePlaylistCmd`: `client` is what `getClient` returns if called, `rows` the decoded CSV
   * file or the error opening or decoding it, `unfollow` what `UnfollowPlaylist` answers for an ID.
   */
  method PurgePlaylists(conf: PurgeConf, client: Result<Client, ClientError>, rows: Result<seq<PlaylistRow>, string>,
                        unfollow: string -> Option<string>)
    returns (run: PurgeRun<string>)
    ensures conf.csv == "" ==> run == PurgeRun(Some(CsvRequired), false, [], None, [], [])
    ensures conf.csv != "" ==> run.clientRequested
    ensures conf.csv != "" && client.Failure? ==>
      run.result == Some(ClientFailed(client.error)) && run.submitted == [] && run.bar.None?
    ensures conf.csv != "" && client.Success? && rows.Failure? ==>
      run.result == Some(FileFailed(rows.error)) && run.submitted == [] && run.bar.None?
    ensures conf.csv != "" && client.Success? && rows.Success? ==>
      run.result.None? && run.toPurge == Select(rows.value, IsMarked, RowId)
    // A dry run unfollows nothing.
    ensures conf.dryRun ==> run.submitted == [] && run.bar.None? && run.logged == []
    // Otherwise one unfollow per ID, no batching, and the bar counts every ID.
    ensures conf.csv != "" && client.Success? && rows.Success? && !conf.dryRun ==>
      run.submitted == run.toPurge && run.bar == Some(Progress(|run.toPurge|, |run.toPurge|)) &&
      run.logged == Failures(run.toPurge, unfollow)
  {
    if conf.csv == "" {
      return PurgeRun(Some(CsvRequired), false, [], None, [], []);
    }
    if client.Failure? {
      return PurgeRun(Some(ClientFailed(client.error)), true, [], None, [], []);
    }
    if rows.Failure? {
      return PurgeRun(Some(FileFailed(rows.error)), true, [], None, [], []);
    }

    var toPurge := CollectMarked(rows.value, IsMarked, RowId);

    if conf.dryRun {
      return PurgeRun(None, true, toPurge, None, [], []);
    }

    var submitted, bar, logged := RunTasks(toPurge, unfollow);
    return PurgeRun(None, true, toPurge, Some(bar), submitted, logged);
  }
}
