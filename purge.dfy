/**
 * The purge pipeline shared by `purgeLikedCmd` (cmd/likedtracks.go:162-205) and
 * `purgePlaylistCmd` (cmd/playlists.go:153-185): the rows marked for deletion,
 * the 50-ID batches, and the task loop that submits each task and advances the
 * progress bar. The worker pool runs tasks concurrently and gives no order
 * between them; the model runs them one after another in submission order.
 */
module Purge {
  import opened Wrappers
  import opened Sequences

  /** The most IDs one `RemoveTracksFromLibrary` call takes (the step of the loop at cmd/likedtracks.go:178). */
  const BatchSize: nat := 50

  /** `toPurge` cut into consecutive slices of `BatchSize`, the last one shorter. */
  function Batches<T>(ids: seq<T>): seq<seq<T>>
    decreases |ids|
  {
    if ids == [] then []
    else if |ids| <= BatchSize then [ids]
    else [ids[..BatchSize]] + Batches(ids[BatchSize..])
  }

  /** The batches put back together are the IDs, in order. */
  lemma {:induction false} BatchesFlatten<T>(ids: seq<T>)
    ensures Flatten(Batches(ids)) == ids
    decreases |ids|
  {
    if ids != [] && |ids| > BatchSize {
      BatchesFlatten(ids[BatchSize..]);
      assert Batches(ids)[1..] == Batches(ids[BatchSize..]);
      assert ids == ids[..BatchSize] + ids[BatchSize..];
    }
  }

  /** Every batch is non-empty and at most `BatchSize` long; all but the last are full. */
  lemma {:induction false} BatchesSizes<T>(ids: seq<T>)
    ensures forall k :: 0 <= k < |Batches(ids)| ==> 0 < |Batches(ids)[k]| <= BatchSize
    ensures forall k :: 0 <= k < |Batches(ids)| - 1 ==> |Batches(ids)[k]| == BatchSize
    decreases |ids|
  {
    if ids != [] && |ids| > BatchSize {
      BatchesSizes(ids[BatchSize..]);
      assert forall k :: 1 <= k < |Batches(ids)| ==> Batches(ids)[k] == Batches(ids[BatchSize..])[k - 1];
    }
  }

  /** There are ceil(n / BatchSize) batches: none for no IDs. */
  lemma {:induction false} BatchesCount<T>(ids: seq<T>)
    ensures |Batches(ids)| == (|ids| + BatchSize - 1) / BatchSize
    decreases |ids|
  {
    if ids != [] && |ids| > BatchSize {
      BatchesCount(ids[BatchSize..]);
    }
  }

  /** Exactly `BatchSize` IDs make one full batch; one more makes a second batch of one. */
  lemma BatchesBoundary<T>(ids: seq<T>)
    ensures |ids| == BatchSize ==> Batches(ids) == [ids]
    ensures |ids| == BatchSize + 1 ==> Batches(ids) == [ids[..BatchSize], ids[BatchSize..]]
  {}

  function Min(a: int, b: int): int {
    if a <= b then a else b
  }

  /** The batching loop of cmd/likedtracks.go:176-185. */
  method Partition<T>(toPurge: seq<T>) returns (batches: seq<seq<T>>)
    ensures batches == Batches(toPurge)
    ensures Flatten(batches) == toPurge
    ensures forall k :: 0 <= k < |batches| ==> 0 < |batches[k]| <= BatchSize
    ensures forall k :: 0 <= k < |batches| - 1 ==> |batches[k]| == BatchSize
    ensures |batches| == (|toPurge| + BatchSize - 1) / BatchSize
  {
    batches := [];
    var i := 0;
    while i < |toPurge|
      invariant 0 <= i
      invariant batches + Batches(toPurge[Min(i, |toPurge|)..]) == Batches(toPurge)
      decreases |toPurge| - i
    {
      var end := i + BatchSize;
      if end > |toPurge| {
        end := |toPurge|;
      }
      ghost var rest := toPurge[i..];
      if end < |toPurge| {
        assert rest[..BatchSize] == toPurge[i..end] && rest[BatchSize..] == toPurge[end..];
        assert Batches(rest) == [toPurge[i..end]] + Batches(toPurge[Min(i + BatchSize, |toPurge|)..]);
      } else {
        assert rest == toPurge[i..end] && toPurge[Min(i + BatchSize, |toPurge|)..] == [];
        assert Batches(rest) == [toPurge[i..end]] + Batches(toPurge[Min(i + BatchSize, |toPurge|)..]);
      }
      batches := batches + [toPurge[i..end]];
      i := i + BatchSize;
    }
    BatchesFlatten(toPurge);
    BatchesSizes(toPurge);
    BatchesCount(toPurge);
  }

  /** The rows-to-IDs loop of cmd/likedtracks.go:162-167 and cmd/playlists.go:153-158. */
  method CollectMarked<R>(rows: seq<R>, marked: R -> bool, id: R -> string) returns (toPurge: seq<string>)
    ensures toPurge == Select(rows, marked, id)
  {
    toPurge := [];
    for i := 0 to |rows|
      invariant toPurge == Select(rows[..i], marked, id)
    {
      assert rows[..i + 1] == rows[..i] + [rows[i]];
      SelectAppend(rows[..i], [rows[i]], marked, id);
      if marked(rows[i]) {
        toPurge := toPurge + [id(rows[i])];
      }
    }
    assert rows[..|rows|] == rows;
  }

  /** A progress bar: its total and how far it has advanced. */
  datatype Progress = Progress(total: nat, done: nat)

  /** An error a task logged. */
  datatype Logged<T> = Logged(task: T, cause: string)

  /** The log lines of a run of tasks, in submission order: one per failed task. */
  function Failures<T>(tasks: seq<T>, run: T -> Option<string>): (r: seq<Logged<T>>)
    ensures |r| <= |tasks|
  {
    if tasks == [] then []
    else Failures(tasks[..|tasks| - 1], run) +
         (match run(tasks[|tasks| - 1]) case None => [] case Some(e) => [Logged(tasks[|tasks| - 1], e)])
  }

  /** A failure is logged exactly when a submitted task failed with that error. */
  lemma {:induction false} FailuresMembers<T>(tasks: seq<T>, run: T -> Option<string>, t: T, e: string)
    ensures Logged(t, e) in Failures(tasks, run) <==> t in tasks && run(t) == Some(e)
  {
    if tasks != [] {
      var init := tasks[..|tasks| - 1];
      FailuresMembers(init, run, t, e);
      assert tasks == init + [tasks[|tasks| - 1]];
    }
  }

  /**
   * The submit loop: every task submitted once, the bar advanced once per task whether it
   * succeeds or fails, each failure logged and none returned.
   */
  method RunTasks<T>(tasks: seq<T>, run: T -> Option<string>) returns (submitted: seq<T>, bar: Progress, logged: seq<Logged<T>>)
    ensures submitted == tasks
    ensures bar == Progress(|tasks|, |tasks|)
    ensures logged == Failures(tasks, run)
  {
    bar := Progress(|tasks|, 0);
    submitted, logged := [], [];
    for i := 0 to |tasks|
      invariant submitted == tasks[..i]
      invariant bar == Progress(|tasks|, i)
      invariant logged == Failures(tasks[..i], run)
    {
      var task := tasks[i];
      submitted := submitted + [task];
      assert tasks[..i + 1][..i] == tasks[..i];
      var err := run(task);
      if err.Some? {
        logged := logged + [Logged(task, err.value)];
      }
      bar := bar.(done := bar.done + 1);
    }
    assert tasks[..|tasks|] == tasks;
  }
}
