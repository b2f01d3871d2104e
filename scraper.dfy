/**
 * The `Scraper` object: credentials, discovered sections, the pagination
 * variables and the run state, updated in place by its methods.
 */
module Scraper {
  import opened Wrappers
  import opened GoStrings
  import opened Csrf
  import opened Throttle
  import opened Timeline
  import opened Pagination
  import opened Discovery

  class Scraper {
    var accessToken: string
    var csrfToken: string
    var cookie: string
    /** `Sections.Index`: the id of the `Bookmarks` operation. */
    var index: string
    /** `Sections.Remove`: the id of the `DeleteBookmark` operation. */
    var remove: string
    /** `variables["count"]`, the page size asked for. */
    var pageSize: int
    /** `variables["cursor"]`, the cursor the next bookmarks request carries. */
    var cursor: string
    var running: bool
    /** `Delay` and `Timeout`, in nanoseconds. */
    var delay: int
    var timeout: int
    /** When the last throttled call returned; `None` is the zero time. */
    var lastRequest: Option<int>

    /** `NewScraper`. */
    constructor ()
      ensures accessToken == "" && csrfToken == "" && cookie == ""
      ensures index == "" && remove == ""
      ensures pageSize == DefaultPageSize && cursor == "" && !running
      ensures delay == DefaultDelay && timeout == DefaultTimeout && lastRequest == None
    {
      accessToken, csrfToken, cookie := "", "", "";
      index, remove := "", "";
      pageSize, cursor, running := DefaultPageSize, "", false;
      delay, timeout, lastRequest := DefaultDelay, DefaultTimeout, None;
    }

    /** The chain state as stored in this object plus the three records kept by a run. */
    function Snapshot(attempts: seq<string>, delivered: seq<CachedTweet>, sent: seq<Request>): ChainState
      reads this
    {
      ChainState(cursor, attempts, running, lastRequest, delivered, sent)
    }

    /**
     * `LoadCsrfToken`: scan the cookie's `;`-segments for the key `ct0`. On
     * the first hit the token becomes that segment's trimmed value and the
     * answer is true; with no hit the old token stays and the answer is false.
     * A `ct0` segment without `=` would make the source index past the end of
     * its parts, so callers must not have one before the first good `ct0`.
     */
    method LoadCsrfToken() returns (found: bool)
      requires CookieLookup(cookie) != MissingValue
      modifies this`csrfToken
      ensures found == CookieLookup(cookie).Found?
      ensures csrfToken == CookieLookup(cookie).TokenOr(old(csrfToken))
    {
      var segments := Split(cookie, ';');
      for i := 0 to |segments|
        invariant SegmentsLookup(segments[i..]) == SegmentsLookup(segments)
        invariant csrfToken == old(csrfToken)
      {
        var parts := SplitOnce(segments[i], '=');
        if Trim(parts[0], ' ') == CsrfCookie {
          csrfToken := Trim(parts[1], ' ');
          return true;
        }
        assert segments[i..][1..] == segments[i + 1..];
      }
      return false;
    }

    /** `SetAccessTokens`: replace the token and the cookie, then derive the CSRF token from the new cookie. */
    method SetAccessTokens(newAccessToken: string, newCookie: string) returns (found: bool)
      requires CookieLookup(newCookie) != MissingValue
      modifies this`accessToken, this`cookie, this`csrfToken
      ensures accessToken == newAccessToken && cookie == newCookie
      ensures found == CookieLookup(cookie).Found?
      ensures csrfToken == CookieLookup(cookie).TokenOr(old(csrfToken))
    {
      accessToken := newAccessToken;
      cookie := newCookie;
      found := LoadCsrfToken();
    }

    /**
     * `delayRequest`, asked at clock reading `now`: how long it sleeps. No
     * sleep before the first request; afterwards the sleep ends no earlier
     * than `delay` after `lastRequest`, and exactly then if it happens at all.
     */
    method DelayRequest(now: int) returns (wait: nat)
      ensures lastRequest == None ==> wait == 0
      ensures lastRequest.Some? ==> now + wait >= lastRequest.value + delay
      ensures wait > 0 ==> lastRequest.Some? && now + wait == lastRequest.value + delay
      ensures wait == Wait(lastRequest, now, delay)
    {
      wait := 0;
      if lastRequest.Some? {
        var delta := delay - (now - lastRequest.value);
        if delta > 0 {
          wait := delta;
        }
      }
    }

    /**
     * A throttled call, as `run`, `DeleteBookmarkDetail` and `TweetDetail` make
     * it: sleep as `delayRequest` says, issue the call, and stamp
     * `lastRequest` when it returns, whether it succeeded or not.
     */
    method ThrottledCall(calledAt: int, latency: nat) returns (issuedAt: int)
      modifies this`lastRequest
      ensures issuedAt == calledAt + Wait(old(lastRequest), calledAt, delay)
      ensures old(lastRequest).Some? ==> issuedAt >= old(lastRequest).value + delay
      ensures lastRequest == Some(issuedAt + latency)
    {
      var wait := DelayRequest(calledAt);
      issuedAt := calledAt + wait;
      lastRequest := Some(issuedAt + latency);
    }

    /** `free`: end the chain. */
    method Free()
      modifies this`running
      ensures !running
    {
      running := false;
    }

    /**
     * One `run` step that gets past the retry bound: give up if the request
     * cannot be built; otherwise issue it for the stored cursor, classify the
     * response, scan a page and apply the continuation rule.
     */
    method RunOnce(keepCursor: bool, x: Exchange, accept: Consumer,
                   attempts: seq<string>, delivered: seq<CachedTweet>, sent: seq<Request>)
      returns (attempts': seq<string>, delivered': seq<CachedTweet>, sent': seq<Request>)
      modifies this`cursor, this`running, this`lastRequest
      ensures Snapshot(attempts', delivered', sent') ==
              Step(Config(keepCursor, pageSize, delay), old(Snapshot(attempts, delivered, sent)), x, accept)
    {
      attempts', delivered', sent' := attempts, delivered, sent;
      if x.response.NotBuilt? {
        Free();
        return;
      }
      var requested := cursor;
      var issuedAt := ThrottledCall(x.calledAt, x.latency);
      sent' := sent + [Request(requested, issuedAt)];
      match x.response
      case Failed =>
        Free();
      case Body(errors, instructions) =>
        if |errors| > 0 {
          attempts' := attempts + [errors[0]];
        } else {
          var scan := ScanPage(instructions, delivered, accept);
          delivered' := scan.delivered;
          if !scan.refused {
            if keepCursor {
              if pageSize <= scan.count {
                if scan.count == scan.empty {
                  cursor := scan.cursor;
                }
                attempts' := [];
              } else {
                Free();
              }
            } else if scan.cursor != "" {
              cursor := scan.cursor;
              attempts' := [];
            } else {
              Free();
            }
          }
        }
    }

    /**
     * `Run`: if a chain is already running, do nothing; otherwise mark the
     * scraper running and drive the chain with the exchanges `xs` (each
     * `go s.run(...)` being the next turn of the loop) until it ends or they
     * run out. Returns the requests issued and the tweets handed to the
     * consumer, which is `OnNewTweet` given as an oracle.
     */
    method Run(keepCursor: bool, xs: seq<Exchange>, accept: Consumer)
      returns (sent: seq<Request>, delivered: seq<CachedTweet>)
      modifies this`cursor, this`running, this`lastRequest
      ensures old(running) ==> unchanged(this) && sent == [] && delivered == []
      ensures !old(running) ==>
                var r := RunChain(Config(keepCursor, pageSize, delay), StartState(old(cursor), old(lastRequest)), xs, accept);
                cursor == r.cursor && running == r.running && lastRequest == r.lastRequest &&
                sent == r.sent && delivered == r.delivered
    {
      if running {
        return [], [];
      }
      running := true;
      var cfg := Config(keepCursor, pageSize, delay);
      ghost var first := Snapshot([], [], []);
      var attempts: seq<string> := [];
      sent, delivered := [], [];
      var k, exhausted := 0, false;
      while running && !exhausted
        invariant 0 <= k <= |xs|
        invariant exhausted ==> k == |xs| && |attempts| <= MaxAttempts
        invariant RunChain(cfg, Snapshot(attempts, delivered, sent), xs[k..], accept) == RunChain(cfg, first, xs, accept)
        decreases |xs| - k, if running && !exhausted then 1 else 0
      {
        if |attempts| > MaxAttempts {
          Free();
        } else if k == |xs| {
          exhausted := true;
        } else {
          assert xs[k..][0] == xs[k] && xs[k..][1..] == xs[k + 1..];
          attempts, delivered, sent := RunOnce(keepCursor, xs[k], accept, attempts, delivered, sent);
          k := k + 1;
        }
      }
    }

    /**
     * `LoadSections`: returns the first failed check, and writes the token and
     * the ids as each search succeeds.
     */
    method LoadSections(page: PageFetch, bundleAt: string -> BundleFetch) returns (err: Option<SectionsError>)
      modifies this`accessToken, this`index, this`remove
      ensures var d := Discover(page, bundleAt);
              err == d.error && accessToken == d.accessToken.GetOr(old(accessToken)) &&
              index == d.index.GetOr(old(index)) && remove == d.remove.GetOr(old(remove))
    {
      match page
      case PageUnavailable =>
        return Some(DownloadFailed(BookmarksPage));
      case PageFetched(mainJs) =>
        if mainJs.None? {
          return Some(MainJsNotFound);
        }
        var bundle := bundleAt(mainJs.value);
        if bundle.BundleUnavailable? {
          return Some(DownloadFailed(mainJs.value));
        }
        if bundle.tokenTail.None? {
          return Some(AccessTokenNotFound);
        }
        accessToken := TokenPrefix + bundle.tokenTail.value;
        if bundle.bookmarksId.None? {
          return Some(IndexSectionNotFound);
        }
        index := bundle.bookmarksId.value;
        if bundle.deleteBookmarkId.None? {
          return Some(RemoveSectionNotFound);
        }
        remove := bundle.deleteBookmarkId.value;
        return None;
    }

    /**
     * `Start` up to its first run: derive the CSRF token, then launch (the
     * section discovery and, if it succeeded, a chain).
     */
    method Start(keepCursor: bool, page: PageFetch, bundleAt: string -> BundleFetch,
                 xs: seq<Exchange>, accept: Consumer)
      returns (err: Option<SectionsError>, sent: seq<Request>, delivered: seq<CachedTweet>)
      requires CookieLookup(cookie) != MissingValue
      modifies this`csrfToken, this`accessToken, this`index, this`remove
      modifies this`cursor, this`running, this`lastRequest
      ensures csrfToken == CookieLookup(cookie).TokenOr(old(csrfToken))
      ensures var d := Discover(page, bundleAt);
              err == d.error && accessToken == d.accessToken.GetOr(old(accessToken)) &&
              index == d.index.GetOr(old(index)) && remove == d.remove.GetOr(old(remove))
      ensures err.Some? || old(running) ==>
                sent == [] && delivered == [] &&
                running == old(running) && cursor == old(cursor) && lastRequest == old(lastRequest)
      ensures err.None? && !old(running) ==>
                var r := RunChain(Config(keepCursor, pageSize, delay), StartState(old(cursor), old(lastRequest)), xs, accept);
                sent == r.sent && delivered == r.delivered && running == r.running &&
                cursor == r.cursor && lastRequest == r.lastRequest
    {
      var _ := LoadCsrfToken();
      err, sent, delivered := Launch(keepCursor, page, bundleAt, xs, accept);
    }

    /** The rest of `Start`: discover the sections, and only if that succeeded start a chain. */
    method Launch(keepCursor: bool, page: PageFetch, bundleAt: string -> BundleFetch,
                  xs: seq<Exchange>, accept: Consumer)
      returns (err: Option<SectionsError>, sent: seq<Request>, delivered: seq<CachedTweet>)
      modifies this`accessToken, this`index, this`remove
      modifies this`cursor, this`running, this`lastRequest
      ensures var d := Discover(page, bundleAt);
              err == d.error && accessToken == d.accessToken.GetOr(old(accessToken)) &&
              index == d.index.GetOr(old(index)) && remove == d.remove.GetOr(old(remove))
      ensures err.Some? || old(running) ==>
                sent == [] && delivered == [] &&
                running == old(running) && cursor == old(cursor) && lastRequest == old(lastRequest)
      ensures err.None? && !old(running) ==>
                var r := RunChain(Config(keepCursor, pageSize, delay), StartState(old(cursor), old(lastRequest)), xs, accept);
                sent == r.sent && delivered == r.delivered && running == r.running &&
                cursor == r.cursor && lastRequest == r.lastRequest
    {
      err := LoadSections(page, bundleAt);
      if err.Some? {
        return err, [], [];
      }
      sent, delivered := Run(keepCursor, xs, accept);
    }
  }
}
