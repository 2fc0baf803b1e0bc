/** cmd/likedtracks.go: `liked list` and `liked purge`. */
module LikedTracks {
  import opened Wrappers
  import opened Sequences
  import opened Text
  import opened Paging
  import opened Purge
  import opened ClientProvider
  import opened Commands

  datatype Artist = Artist(name: string)

  /** The fields of a saved track the command reads. */
  datatype Track = Track(id: string, name: string, artists: seq<Artist>)

  /** `trackRow`, one CSV line. */
  datatype TrackRow = TrackRow(id: string, name: string, artists: string, delete: bool)

  const ArtistSeparator: string := "; "

  function ArtistNames(artists: seq<Artist>): (names: seq<string>)
    ensures |names| == |artists| && forall j :: 0 <= j < |artists| ==> names[j] == artists[j].name
  {
    seq(|artists|, j requires 0 <= j < |artists| => artists[j].name)
  }

  /** The `artists` column: the artist names in ascending order, joined by "; ". */
  function ArtistsCell(artists: seq<Artist>): string {
    Join(SortStrings(ArtistNames(artists)), ArtistSeparator)
  }

  /** The column is the join of the one ascending arrangement of the names. */
  lemma ArtistsCellIsSortedJoin(artists: seq<Artist>, sorted: seq<string>)
    requires Sorted(sorted) && multiset(sorted) == multiset(ArtistNames(artists))
    ensures ArtistsCell(artists) == Join(sorted, ArtistSeparator)
  {
    SortedUnique(sorted, SortStrings(ArtistNames(artists)));
  }

  /** The column does not depend on the order in which the API lists the artists. */
  lemma ArtistsCellIgnoresOrder(a: seq<Artist>, b: seq<Artist>)
    requires multiset(ArtistNames(a)) == multiset(ArtistNames(b))
    ensures ArtistsCell(a) == ArtistsCell(b)
  {
    SortedUnique(SortStrings(ArtistNames(a)), SortStrings(ArtistNames(b)));
  }

  /** The row a listed track becomes. */
  function RowOf(track: Track): TrackRow {
    TrackRow(track.id, track.name, ArtistsCell(track.artists), false)
  }

  /** The projection loop of cmd/likedtracks.go:100-114: one row per track, in order. */
  method TrackRows(tracks: seq<Track>) returns (rows: seq<TrackRow>)
    ensures |rows| == |tracks|
    ensures forall i :: 0 <= i < |tracks| ==>
      rows[i].id == tracks[i].id && rows[i].name == tracks[i].name && !rows[i].delete &&
      rows[i].artists == Join(SortStrings(ArtistNames(tracks[i].artists)), ArtistSeparator)
  {
    var buf := new TrackRow[|tracks|];
    for i := 0 to |tracks|
      invariant forall k :: 0 <= k < i ==> buf[k] == RowOf(tracks[k])
    {
      var track := tracks[i];
      var artists := new string[|track.artists|];
      for j := 0 to |track.artists|
        modifies artists
        invariant forall k :: 0 <= k < j ==> artists[k] == track.artists[k].name
      {
        artists[j] := track.artists[j].name;
      }
      assert artists[..] == ArtistNames(track.artists);
      var sorted := SortStrings(artists[..]);
      buf[i] := TrackRow(track.id, track.name, Join(sorted, ArtistSeparator), false);
    }
    rows := buf[..];
  }

  /**
   * `likedListCmd`: `first` is what `CurrentUsersTracks` returned, `next` the `NextPage`
   * outcomes in call order, `jsonWrite` and `csvWrite` how writing the files ended.
   */
  method ListLiked(conf: ListConf, client: Result<Client, ClientError>, first: Result<seq<Track>, string>,
                   next: seq<NextPage<Track>>, jsonWrite: Option<string>, csvWrite: Option<string>)
    returns (run: ListRun<Track, TrackRow>)
    requires Ends(next)
    ensures client.Failure? ==> run == ListRun(Some(ClientFailed(client.error)), None, None)
    ensures client.Success? && first.Failure? ==> run == ListRun(Some(ApiFailed(first.error)), None, None)
    ensures client.Success? && first.Success? && next[StopAt(next)].PageFailed? ==>
      run == ListRun(Some(ApiFailed(next[StopAt(next)].cause)), None, None)
    ensures run.json.Some? ==>
      conf.json != "" && client.Success? && first.Success? && next[StopAt(next)].NoMorePages? &&
      run.json.value == first.value + Flatten(PageItems(next[..StopAt(next)]))
    ensures run.csv.Some? ==>
      conf.csv != "" && (conf.json == "" || jsonWrite.None?) &&
      client.Success? && first.Success? && next[StopAt(next)].NoMorePages? &&
      var tracks := first.value + Flatten(PageItems(next[..StopAt(next)]));
      |run.csv.value| == |tracks| && forall i :: 0 <= i < |tracks| ==> run.csv.value[i] == RowOf(tracks[i])
    ensures run.result.None? <==>
      client.Success? && first.Success? && next[StopAt(next)].NoMorePages? &&
      (conf.json == "" || jsonWrite.None?) && (conf.csv == "" || csvWrite.None?)
    ensures run.result.None? ==> (run.json.Some? <==> conf.json != "") && (run.csv.Some? <==> conf.csv != "")
  {
    if client.Failure? {
      return ListRun(Some(ClientFailed(client.error)), None, None);
    }
    if first.Failure? {
      return ListRun(Some(ApiFailed(first.error)), None, None);
    }
    var tracks := CollectPages(first.value, next);
    if tracks.Failure? {
      return ListRun(Some(ApiFailed(tracks.error)), None, None);
    }

    var json: Option<seq<Track>> := None;
    if conf.json != "" {
      json := Some(tracks.value);
      if jsonWrite.Some? {
        return ListRun(Some(FileFailed(jsonWrite.value)), json, None);
      }
    }

    var csv: Option<seq<TrackRow>> := None;
    if conf.csv != "" {
      var rows := TrackRows(tracks.value);
      csv := Some(rows);
      if csvWrite.Some? {
        return ListRun(Some(FileFailed(csvWrite.value)), json, csv);
      }
    }
    return ListRun(None, json, csv);
  }

  function IsMarked(row: TrackRow): bool {
    row.delete
  }

  function RowId(row: TrackRow): string {
    row.id
  }

  /**
   * `purgeLikedCmd`: `client` is what `getClient` returns if called, `rows` the decoded CSV
   * file or the error opening or decoding it, `remove` what `RemoveTracksFromLibrary`
   * answers for a batch.
   */
  method PurgeLiked(conf: PurgeConf, client: Result<Client, ClientError>, rows: Result<seq<TrackRow>, string>,
                    remove: seq<string> -> Option<string>)
    returns (run: PurgeRun<seq<string>>)
    ensures conf.csv == "" ==> run == PurgeRun(Some(CsvRequired), false, [], None, [], [])
    ensures conf.csv != "" ==> run.clientRequested
    ensures conf.csv != "" && client.Failure? ==>
      run.result == Some(ClientFailed(client.error)) && run.submitted == [] && run.bar.None?
    ensures conf.csv != "" && client.Success? && rows.Failure? ==>
      run.result == Some(FileFailed(rows.error)) && run.submitted == [] && run.bar.None?
    ensures conf.csv != "" && client.Success? && rows.Success? ==>
      run.result.None? && run.toPurge == Select(rows.value, IsMarked, RowId)
    // A dry run removes nothing and builds no batches.
    ensures conf.dryRun ==> run.submitted == [] && run.bar.None? && run.logged == []
    // Otherwise every 50-ID batch is submitted once and the bar counts every batch.
    ensures conf.csv != "" && client.Success? && rows.Success? && !conf.dryRun ==>
      run.submitted == Batches(run.toPurge) && Flatten(run.submitted) == run.toPurge &&
      run.bar == Some(Progress(|run.submitted|, |run.submitted|)) &&
      |run.submitted| == (|run.toPurge| + BatchSize - 1) / BatchSize &&
      run.logged == Failures(run.submitted, remove)
  {
    if conf.csv == "" {
      return PurgeRun(Some(CsvRequired), false, [], None, [], []);
    }
    if client.Failure? {
      return PurgeRun(Some(ClientFailed(client.error)), true, [], None, [], []);
    }
    if rows.Failure? {
      return PurgeRun(Some(FileFailed(rows.error)), true, [], None, [], []);
    }

    var toPurge := CollectMarked(rows.value, IsMarked, RowId);

    if conf.dryRun {
      return PurgeRun(None, true, toPurge, None, [], []);
    }

    var batches := Partition(toPurge);
    var submitted, bar, logged := RunTasks(batches, remove);
    return PurgeRun(None, true, toPurge, Some(bar), submitted, logged);
  }
}
