/**
 * Discovery of the session sections: the bookmarks page is fetched and
 * searched for the client bundle's URL; the bundle is fetched and searched,
 * in this order, for the bearer token, the id of the `Bookmarks` operation
 * and the id of the `DeleteBookmark` operation. Each search is reduced to
 * its outcome (the text it captured, or no match); the matching itself is
 * not modelled.
 */
module Discovery {
  import opened Wrappers

  /** The page fetched first. */
  const BookmarksPage := "https://twitter.com/i/bookmarks"

  /** The fifteen `A`s the bearer-token pattern starts with. */
  const TokenPrefix := "AAAAAAAAAAAAAAA"

  /** Fetching the bookmarks page: failed (transport, non-2xx status, unreadable body), or the main-bundle URL search outcome. */
  datatype PageFetch = PageUnavailable | PageFetched(mainJs: Option<string>)

  /**
   * Fetching the bundle: failed, or the three search outcomes: the token text
   * after the prefix, and the captured ids of the two operations.
   */
  datatype BundleFetch =
    | BundleUnavailable
    | BundleFetched(tokenTail: Option<string>, bookmarksId: Option<string>, deleteBookmarkId: Option<string>)

  /** The errors `LoadSections` returns; a failed fetch names the URL it was fetching. */
  datatype SectionsError =
    | DownloadFailed(src: string)
    | MainJsNotFound
    | AccessTokenNotFound
    | IndexSectionNotFound
    | RemoveSectionNotFound

  /** The returned error and the values written to `AccessToken`, `Sections.Index` and `Sections.Remove` (None: not written). */
  datatype Discovered = Discovered(
    error: Option<SectionsError>,
    accessToken: Option<string>,
    index: Option<string>,
    remove: Option<string>)

  /** The outcome of `LoadSections`, given how the page fetch went and how a bundle fetch goes for each URL. */
  function Discover(page: PageFetch, bundleAt: string -> BundleFetch): Discovered
  {
    match page
    case PageUnavailable => Discovered(Some(DownloadFailed(BookmarksPage)), None, None, None)
    case PageFetched(None) => Discovered(Some(MainJsNotFound), None, None, None)
    case PageFetched(Some(url)) =>
      match bundleAt(url)
      case BundleUnavailable => Discovered(Some(DownloadFailed(url)), None, None, None)
      case BundleFetched(tail, bookmarks, delete) =>
        if tail.None? then Discovered(Some(AccessTokenNotFound), None, None, None)
        else
          var token := TokenPrefix + tail.value;
          if bookmarks.None? then Discovered(Some(IndexSectionNotFound), Some(token), None, None)
          else if delete.None? then Discovered(Some(RemoveSectionNotFound), Some(token), Some(bookmarks.value), None)
          else Discovered(None, Some(token), Some(bookmarks.value), Some(delete.value))
  }

  /** The bundle that `page` leads to, if the page was fetched and named one. */
  function BundleOf(page: PageFetch, bundleAt: string -> BundleFetch): Option<BundleFetch>
  {
    if page.PageFetched? && page.mainJs.Some? then Some(bundleAt(page.mainJs.value)) else None
  }

  /**
   * The checks happen in a fixed order and the first one that fails decides
   * the error: page fetch, bundle URL, bundle fetch, token, `Bookmarks` id,
   * `DeleteBookmark` id. There is no error exactly when all of them pass.
   */
  lemma DiscoveryOrder(page: PageFetch, bundleAt: string -> BundleFetch)
    ensures var d := Discover(page, bundleAt);
            var b := BundleOf(page, bundleAt);
            (page.PageUnavailable? ==> d.error == Some(DownloadFailed(BookmarksPage))) &&
            (d.error == Some(MainJsNotFound) <==> page == PageFetched(None)) &&
            (b == Some(BundleUnavailable) ==> d.error == Some(DownloadFailed(page.mainJs.value))) &&
            (d.error == Some(AccessTokenNotFound) <==>
               b.Some? && b.value.BundleFetched? && b.value.tokenTail.None?) &&
            (d.error == Some(IndexSectionNotFound) <==>
               b.Some? && b.value.BundleFetched? && b.value.tokenTail.Some? && b.value.bookmarksId.None?) &&
            (d.error == Some(RemoveSectionNotFound) <==>
               b.Some? && b.value.BundleFetched? && b.value.tokenTail.Some? && b.value.bookmarksId.Some? &&
               b.value.deleteBookmarkId.None?) &&
            (d.error == None <==>
               b.Some? && b.value.BundleFetched? && b.value.tokenTail.Some? && b.value.bookmarksId.Some? &&
               b.value.deleteBookmarkId.Some?)
  {
  }

  /**
   * Fields are written as their search succeeds, before the next search can
   * fail: the token (with its fifteen-`A` prefix) is written whenever the
   * error, if any, is about one of the two ids; `Sections.Index` whenever it
   * is about the `DeleteBookmark` id; `Sections.Remove` only on success. A
   * failure of either fetch, or a missing bundle URL, writes nothing. What
   * is written is what the searches of the fetched bundle captured: the
   * prefix followed by the token text, the `Bookmarks` id into
   * `Sections.Index` and the `DeleteBookmark` id into `Sections.Remove`.
   */
  lemma PartialWrites(page: PageFetch, bundleAt: string -> BundleFetch)
    ensures var d := Discover(page, bundleAt);
            var b := BundleOf(page, bundleAt);
            (d.accessToken.Some? ==>
               b.Some? && b.value.BundleFetched? && b.value.tokenTail.Some? &&
               d.accessToken.value == TokenPrefix + b.value.tokenTail.value) &&
            (d.index.Some? ==>
               b.Some? && b.value.BundleFetched? && b.value.bookmarksId.Some? &&
               d.index.value == b.value.bookmarksId.value) &&
            (d.remove.Some? ==>
               b.Some? && b.value.BundleFetched? && b.value.deleteBookmarkId.Some? &&
               d.remove.value == b.value.deleteBookmarkId.value) &&
            (d.accessToken.Some? <==>
               d.error in {None, Some(IndexSectionNotFound), Some(RemoveSectionNotFound)}) &&
            (d.index.Some? <==> d.error in {None, Some(RemoveSectionNotFound)}) &&
            (d.remove.Some? <==> d.error == None) &&
            (d.accessToken.Some? ==>
               |d.accessToken.value| >= 15 && d.accessToken.value[..15] == TokenPrefix) &&
            (d.error.Some? && d.error.value.DownloadFailed? ==> d.accessToken == d.index == d.remove == None)
  {
  }
}
