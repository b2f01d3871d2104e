# Bookmark scraper: a verified model of the `Scraper` core

This project models the decision-making inside the `Scraper` of a tool that
keeps pulling a user's Twitter bookmarks and hands each one to a consumer
callback. It is written in Dafny. The model covers five pieces:

- **CSRF token.** The token is derived from the session cookie.
- **Request throttle.** It keeps at least `Delay` between throttled calls.
- **Pagination / retry chain.** This is what `Run`, `run` and `free` do. It
  has a single-flight guard on `running` and a bound on accumulated API
  errors. It scans each page, calls the consumer and chooses the cursor.
- **Section discovery.** `LoadSections` checks things in a fixed order and
  writes some fields before a later check can fail.
- **Credential replacement** (`SetAccessTokens`).

The outside world is made into inputs:

- Clock readings and call latencies are integers (nanoseconds).
- Each bookmarks response is an `Exchange`: the clock reading, the latency,
  and a response. The response is one of three kinds: a request that could
  not be built, a request that failed, or a body decoded into API errors and
  timeline instructions.
- The consumer `OnNewTweet` is an oracle without side effects. It sees the
  tweets it was given earlier in the run and the tweet now offered.
- The two fetches of `LoadSections` become their search outcomes.

Every `go s.run(...)` continuation is one more turn of the loop in
`Scraper.Run`. That loop is driven by a finite sequence of exchanges. If the
exchanges run out while the chain still wants to go on, `running` stays true:
the chain is still in flight.

Files:

- `go_strings.dfy`: the `strings.Split`, `strings.SplitN(…, 2)` and
  `strings.Trim` behaviour the cookie parser relies on.
- `csrf.dfy`: the cookie scan.
- `throttle.dfy`: the wait computation.
- `timeline.dfy`: entries and the page pass, with its nested loops.
- `pagination.dfy`: one chain step and the whole chain as functions, with
  lemmas about them.
- `discovery.dfy`: the outcome of `LoadSections`.
- `scraper.dfy`: the `Scraper` class. Its methods update fields in place and
  are proved against those functions.

Where a reader might expect otherwise, the model follows the code:

- A cookie without `ct0` leaves the old CSRF token in place. It is not
  cleared.
- A consumer that returns `false` does not end the chain. The same page is
  requested again with the same cursor and the same API-error list.
  Refusals are not counted towards the retry bound, so a consumer that always
  refuses keeps the chain going forever (`RefusingConsumerNeverEnds`).
- `lastRequest` is stamped when the call returns, not when it is issued.
- A request that cannot be built ends the chain before the throttle: there is
  no wait, nothing is sent and `lastRequest` is not stamped.
- The retry bound is on the length of the API-error list: more than 10
  entries ends the chain. A fresh chain therefore sends 11 requests to an
  endpoint that only answers with API errors.
- A bookmarks response counts as a failure for any status other than 200,
  not only for statuses outside 2xx.

## Model

| member | source | states |
|---|---|---|
| `GoStrings.Split` | scraper/scraper.go:134 | the `;`-pieces of the cookie: at least one, and none containing `;` |
| `GoStrings.JoinSplit` | scraper/scraper.go:134 | joining the `;`-pieces back with `;` gives the cookie |
| `GoStrings.SplitJoin` | scraper/scraper.go:134 | splitting a join of separator-free pieces gives the pieces back (the other direction of the round trip) |
| `GoStrings.SplitOnce` | scraper/scraper.go:135 | a segment cut at its first `=`: two parts exactly when there is an `=`, and the first part has no `=` |
| `GoStrings.JoinSplitOnce` | scraper/scraper.go:135 | the two parts joined with `=` give the segment back |
| `GoStrings.Trim` | scraper/scraper.go:136-137 | `strings.Trim` with a one-character cut set, defined through the counts of leading and trailing cut characters; its meaning is stated by `TrimEnds` and `TrimIdempotent` |
| `GoStrings.LeadingRun` | scraper/scraper.go:136-137 | the count of leading cut characters covers a maximal run: all of it is the cut character, and the next character is not |
| `GoStrings.TrailingRun` | scraper/scraper.go:136-137 | likewise for the trailing run: all of it is the cut character, and the character before it is not |
| `GoStrings.TrimEnds` | scraper/scraper.go:136-137 | the trimmed text is the slice of the input between its leading and trailing runs of the cut character: everything dropped is the cut character, and the result is empty or neither starts nor ends with it |
| `GoStrings.TrimIdempotent` | scraper/scraper.go:136-137 | trimming twice is the same as trimming once |
| `Csrf.SegmentOutcome` | scraper/scraper.go:135-137 | what one `;`-segment says on its own: nothing unless its trimmed key is `ct0`, then its trimmed value or the missing-value panic; stated by `SegmentDecides` |
| `Csrf.SegmentsLookup` | scraper/scraper.go:134-141 | the scan over the segments that stops at the first segment with an outcome; stated by `LookupAbsent`, `LookupFirst` and `FoundTokenTrimmed` |
| `Csrf.CookieLookup` | scraper/scraper.go:133-142 | the scan of the whole cookie split on `;`; what `LoadCsrfToken` is proved against |
| `Csrf.SegmentDecides` | scraper/scraper.go:135-140 | one segment decides the scan exactly when its trimmed key is `ct0`, and then it yields the trimmed text after its first `=`, or the out-of-range case when it has no `=` |
| `Csrf.FirstDecidedAbsent` | scraper/scraper.go:133-142 | a scan that stops at the first segment with an outcome finds nothing exactly when no segment has one |
| `Csrf.FirstDecidedFirst` | scraper/scraper.go:133-142 | that scan returns the outcome of the first segment that has one |
| `Csrf.LookupAbsent` | scraper/scraper.go:133-142 | the cookie scan finds nothing exactly when no segment's key (the text before its first `=`, trimmed) is `ct0` |
| `Csrf.LookupFirst` | scraper/scraper.go:133-142 | otherwise the FIRST `ct0` segment decides: the trimmed text after its first `=`, or the out-of-range case when it has no `=`. Later segments play no part |
| `Csrf.FoundTokenTrimmed` | scraper/scraper.go:137 | a token that is found has no leading or trailing space |
| `Csrf.CsrfSegmentWithEquals` | scraper/scraper.go:135-137 | the value after `ct0=` is taken whole, even if it holds more `=`, and only its outer spaces are removed |
| `Throttle.Wait` | scraper/scraper.go:123-131 | no wait before the first request. Afterwards the wait ends no earlier than `Delay` after `lastRequest`, and a non-zero wait ends exactly then |
| `Throttle.ConsecutiveCallsSpaced` | scraper/scraper.go:123-131 | two throttled calls in a row are issued at least `Delay` apart, whatever the clock readings |
| `Timeline.Resolve` | scraper/scraper.go:318-323 | the top-level tweet and user are used when the top-level id is non-empty; otherwise the nested `Tweet` legacy part and the nested `Tweet` user are used together. The resolved id is empty iff both the top-level and the nested `Tweet` ids are empty |
| `Timeline.ScanEntry` | scraper/scraper.go:315-347 | the effect of one entry on the page pass: item counting, the empty-id case, the call to the consumer and its refusal, the `Bottom` cursor |
| `Timeline.Scan` | scraper/scraper.go:313-349 | the page pass over the entries in order, stopping at a refusal; its meaning is stated by `ScanCounts`, `ScanAccepted`, `ScanRefusal` and `ScanRefusedStable` |
| `Timeline.ScanCounts` | scraper/scraper.go:325-349 | always `empty <= count`. If the consumer refused nothing, every item is counted, the empty items are counted separately, and the page cursor is the last `Bottom` cursor (or `""`) |
| `Timeline.ScanAccepted` | scraper/scraper.go:325-338 | if the consumer refused nothing, exactly the non-empty tweets were offered, in entry order, and each was accepted |
| `Timeline.ScanRefusal` | scraper/scraper.go:325-338 | if the consumer refused a tweet, the offered tweets are the non-empty ones up to and including the refused one: every earlier one was accepted, and none after it was offered |
| `Timeline.ScanExtends` | scraper/scraper.go:333-338 | the page pass only appends to the tweets handed over before it |
| `Timeline.ScanRefusedStable` | scraper/scraper.go:336-338 | once the consumer has refused, later entries change nothing |
| `Timeline.ScanPage` | scraper/scraper.go:310-349 | the nested loops over instructions and entries, with their early return, compute the page pass `Scan` over the page's entries |
| `Pagination.Issue` | scraper/scraper.go:271-273 | the throttled request of a step: it leaves after the throttle's wait with the stored cursor, and `lastRequest` is stamped when it returns; stated by `StepSpacing` |
| `Pagination.Continuation` | scraper/scraper.go:351-365 | the continuation rule after a fully scanned page; stated by `PageContinuation` |
| `Pagination.Step` | scraper/scraper.go:261-366 | one `run` step past the retry bound; what `RunOnce` is proved against, and stated by `StepRecord`, `PageContinuation`, `UnbuiltRequestEndsChain` and `TransportFailureEndsChain` |
| `Pagination.RunChain` | scraper/scraper.go:254-366 | the chain of `run` steps with the retry bound; what `Run` is proved against, and stated by `ChainBookkeeping`, `RetryCeiling`, `RefusingConsumerNeverEnds` and `ChainSpacing` |
| `Pagination.StepRecord` | scraper/scraper.go:261-366 | a step whose request cannot be built only ends the chain. Any other step issues exactly one request and keeps the earlier ones. Every step only appends to the deliveries |
| `Pagination.ChainBookkeeping` | scraper/scraper.go:254-366 | a chain only appends to its requests and deliveries and issues at most one request per exchange. A chain that has ended stays ended. A chain still running has used every exchange and has at most 10 recorded API errors |
| `Pagination.RetryCeiling` | scraper/scraper.go:254-307 | against API-error responses, a chain with `a` errors recorded issues `11 - a` more requests, all for the unchanged cursor, and then ends. With fewer such responses it is still running |
| `Pagination.AlwaysApiErrors` | scraper/scraper.go:254-307 | an endpoint that always returns API errors gets exactly 11 requests from a fresh chain, which then ends with `running` cleared |
| `Pagination.TransportFailureEndsChain` | scraper/scraper.go:275-299 | a failed request ends the chain after that one request, with the cursor and the error list untouched |
| `Pagination.UnbuiltRequestEndsChain` | scraper/scraper.go:261-266 | a request that cannot be built ends the chain before any wait: nothing is sent, `lastRequest` is not stamped, and the cursor and the error list stay as they were |
| `Pagination.PageContinuation` | scraper/scraper.go:351-365 | after a page the consumer took in full, `keepCursor` continues iff `count <= items`, and moves the stored cursor to the page cursor only when every item was empty. Without `keepCursor` the chain continues iff the page cursor is non-empty, and stores it. A continuing chain has an empty error list; an ending one keeps its cursor |
| `Pagination.RefusalRepeatsPage` | scraper/scraper.go:333-339 | after a refusal the chain goes on. The next request, if it can be built, carries the same cursor as the refused page |
| `Pagination.RefusingConsumerNeverEnds` | scraper/scraper.go:333-339 | a consumer that refuses everything, offered pages that hold tweets, keeps the chain running on every exchange, always with the same cursor and the same error list |
| `Pagination.StepSpacing` | scraper/scraper.go:261-273 | one step keeps the requests spaced. A request it issues leaves at least `Delay` after the `lastRequest` it started from, which is no earlier than the previous request. A request that cannot be built adds nothing |
| `Pagination.ChainSpacing` | scraper/scraper.go:271-273 | the requests of a run leave at least `Delay` apart, the first at least `Delay` after the previous `lastRequest`, and `lastRequest` never precedes the last request |
| `Discovery.Discover` | scraper/scraper.go:144-221 | the outcome of `LoadSections`: its error and the values it writes; stated by `DiscoveryOrder` and `PartialWrites`, and what `LoadSections` is proved against |
| `Discovery.DiscoveryOrder` | scraper/scraper.go:144-221 | the first failing check decides the error, in this order: page fetch, main js URL, bundle fetch, access token, `Bookmarks` id, `DeleteBookmark` id. There is no error iff every check passes |
| `Discovery.PartialWrites` | scraper/scraper.go:192-215 | the token is written whenever the failure, if any, is about an id. `Sections.Index` is written when it is about the remove id. `Sections.Remove` is written only on success. A failed fetch writes nothing. What is written is what the fetched bundle's searches captured: the fifteen-`A` prefix plus the token text, the `Bookmarks` id into `Index`, the `DeleteBookmark` id into `Remove` |
| `Scraper.Scraper.constructor` | scraper/scraper.go:50-93 | empty credentials and sections, page size 20, empty cursor, not running, 30 s delay, 10 s timeout, zero `lastRequest` |
| `Scraper.Scraper.LoadCsrfToken` | scraper/scraper.go:133-142 | the loop with early return answers whether a `ct0` segment exists. It sets the token from the first one and otherwise leaves the old token |
| `Scraper.Scraper.SetAccessTokens` | scraper/scraper.go:223-230 | overwrites the access token and the cookie, then re-derives the CSRF token from the new cookie |
| `Scraper.Scraper.DelayRequest` | scraper/scraper.go:123-131 | the sleep is zero before the first request and otherwise ends no earlier than `Delay` after `lastRequest` |
| `Scraper.Scraper.ThrottledCall` | scraper/scraper.go:271-273 | the call is issued after the throttle's wait, at least `Delay` after the previous stamp, and `lastRequest` is stamped when it returns |
| `Scraper.Scraper.Free` | scraper/scraper.go:368-374 | clears `running` |
| `Scraper.Scraper.RunOnce` | scraper/scraper.go:254-366 | one `run` step that issues a request moves the stored cursor, `running`, `lastRequest` and the run's records exactly as the chain step `Step` says |
| `Scraper.Scraper.Run` | scraper/scraper.go:244-252 | while a chain is running it changes nothing. Otherwise it sets `running` and leaves the cursor, `running`, `lastRequest` and the run's records as the whole chain `RunChain` from a fresh start says |
| `Scraper.Scraper.LoadSections` | scraper/scraper.go:144-221 | returns the error that `Discover` gives and writes exactly the fields that `Discover` says were found, leaving the others unchanged |
| `Scraper.Scraper.Start` | scraper/scraper.go:95-102 | derives the CSRF token from the cookie (keeping the old one when there is no `ct0` segment), then discovers the sections, writing the token and ids `Discover` found and leaving the others. It starts a chain only if discovery succeeded and none is running; then the cursor, `running`, `lastRequest` and the run's records are as `RunChain` from a fresh start says. Otherwise no request is issued and the chain state is untouched |
| `Scraper.Scraper.Launch` | scraper/scraper.go:97-102 | the error and the written token and ids are those `Discover` gives. On failure, or when a chain is already running, nothing is sent and the cursor, `running` and `lastRequest` are unchanged. Otherwise the chain runs as `RunChain` from a fresh start says |

## Left out

- HTTP transport, response bodies and JSON decoding: each bookmarks response
  is an input value, including whether `http.NewRequest` could build the
  request. The two `LoadSections` fetches are their search outcomes. `http.NewRequest`, `Do`, status codes, `io.ReadAll` and
  `json.Unmarshal` are not modelled.
- The regular expressions of `LoadSections`: only whether each one matches,
  and what it captures, in the source's order.
- `buildUrl`, and the `variables` and `features` maps apart from `count` and
  `cursor`. The JSON encoding and URL escaping are library calls. A request is
  recorded with the cursor it carries.
- The type assertion `variables["count"].(int)` always succeeds, because
  `NewScraper` is the only writer of `count`. Its failing branch is therefore
  not modelled.
- Concurrency: goroutines, the `sync.RWMutex`, the ticker, the `close`
  channel, `Stop`, and the periodic re-runs that `Start` schedules every
  `FetchInterval`. `free` clears `running` at once instead of in a goroutine.
  `Start` is modelled only up to its first `Run`.
- Real time: `time.Now` and `time.Sleep` become integer clock readings. Go's
  64-bit `Duration` arithmetic (with saturation) becomes unbounded integers.
- `Download`, `DeleteBookmarkDetail`, `TweetDetail` and `Get` are I/O
  wrappers. The throttled part of `DeleteBookmarkDetail` and `TweetDetail` is
  `Scraper.Scraper.ThrottledCall`. `Get` neither waits nor stamps
  `lastRequest`, and it is not modelled.
- Entry and cursor types as strings: an entry is a timeline item, a timeline
  cursor, or another type that the page pass skips. A cursor's type is either
  `Bottom` or another name. Only that distinction matters to the source.
- Logging: every `log.*` call. The error messages of `LoadSections` are
  error constructors, not strings.
- `Scraper.Scraper.LoadCsrfToken` requires a cookie with no `ct0` segment
  lacking `=` before the first usable `ct0` segment. The source would index
  past the end of that segment's parts, which panics. `SetAccessTokens` and
  `Start` carry the same precondition.
- `Scraper.Scraper.Run` takes the consumer to have no side effects. A
  consumer that makes throttled calls of its own, such as
  `DeleteBookmarkDetail` (scraper/scraper.go:409-411) or `TweetDetail`
  (scraper/scraper.go:469-471), would stamp `lastRequest` between two chain
  requests. The next chain request would then wait from that stamp, and
  `lastRequest` after the chain would be the callback's. The model does not
  interleave such calls with a chain, so `Run`'s `lastRequest` and the
  `issuedAt` of its requests hold only for a consumer that makes none.
  `ChainSpacing` would still hold, since an extra stamp only delays the next
  request.
- `Scraper.Scraper.Run` models a finite prefix of a chain, driven by the
  exchanges supplied. A chain that would go on past them is left running.
