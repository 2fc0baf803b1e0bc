/**
 * The pagination loop of `likedListCmd` (cmd/likedtracks.go:65-83) and
 * `listPlaylistCmd` (cmd/playlists.go:63-81): the first page, then one
 * `NextPage` call after another until `ErrNoMorePages`.
 */
module Paging {
  import opened Wrappers
  import opened Sequences

  /** What one `NextPage` call yields: the next page's items, `ErrNoMorePages`, or another error. */
  datatype NextPage<T> = Page(items: seq<T>) | NoMorePages | PageFailed(cause: string)

  /** The remote listing ends: some `NextPage` call does not return a page. */
  predicate Ends<T>(next: seq<NextPage<T>>) {
    exists k :: 0 <= k < |next| && !next[k].Page?
  }

  /** The index of the `NextPage` call that ends the loop. */
  function StopAt<T>(next: seq<NextPage<T>>): (k: nat)
    requires Ends(next)
    ensures k < |next| && !next[k].Page?
    ensures forall j :: 0 <= j < k ==> next[j].Page?
  {
    if !next[0].Page? then 0
    else
      assert Ends(next[1..]) by {
        var k :| 0 <= k < |next| && !next[k].Page?;
        assert !next[1..][k - 1].Page?;
      }
      1 + StopAt(next[1..])
  }

  /** The items of a run of pages, page by page. */
  function PageItems<T>(pages: seq<NextPage<T>>): (r: seq<seq<T>>)
    requires forall j :: 0 <= j < |pages| ==> pages[j].Page?
    ensures |r| == |pages|
  {
    seq(|pages|, j requires 0 <= j < |pages| => pages[j].items)
  }

  /**
   * The listed items are the first page followed by every later page, in order, when the
   * loop ends with `ErrNoMorePages`; any other error aborts with that error.
   */
  method CollectPages<T>(first: seq<T>, next: seq<NextPage<T>>) returns (r: Result<seq<T>, string>)
    requires Ends(next)
    ensures next[StopAt(next)].NoMorePages? ==>
      r == Success(first + Flatten(PageItems(next[..StopAt(next)])))
    ensures next[StopAt(next)].PageFailed? ==> r == Failure(next[StopAt(next)].cause)
  {
    var items := first;
    var i := 0;
    while true
      invariant 0 <= i <= StopAt(next)
      invariant items == first + Flatten(PageItems(next[..i]))
      decreases StopAt(next) - i
    {
      match next[i]
      case NoMorePages =>
        return Success(items);
      case PageFailed(e) =>
        return Failure(e);
      case Page(page) =>
        assert PageItems(next[..i + 1]) == PageItems(next[..i]) + [page];
        FlattenAppend(PageItems(next[..i]), page);
        items := items + page;
        i := i + 1;
    }
  }
}
