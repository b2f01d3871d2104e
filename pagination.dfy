/**
 * The pagination / retry chain started by `Run`. Each step issues one
 * throttled request for the stored cursor and classifies the response:
 * a failure ends the chain; API errors are recorded and the same cursor is
 * asked for again; a page is scanned and the continuation rule decides
 * whether another step follows and with which stored cursor. The chain ends
 * (`running` cleared, which is what `free` does) when more than
 * `MaxAttempts` API errors have piled up, on a failure, or when the
 * continuation rule says so. Each `go s.run(...)` of the scraper is one
 * more step here, driven by the next exchange of a finite sequence.
 */
module Pagination {
  import opened Wrappers
  import opened Throttle
  import opened Timeline

  /** A step with more recorded API errors than this issues no request and ends the chain. */
  const MaxAttempts := 10

  /** The page size sent as `variables["count"]` by a fresh scraper. */
  const DefaultPageSize := 20

  /**
   * The outcome of one bookmarks request. `NotBuilt` is a request that
   * `http.NewRequest` refuses (the URL built around `Sections.Index` does not
   * parse): nothing is sent, nobody waits and `lastRequest` is not stamped.
   * In the source this depends only on `Sections.Index`, which a chain never
   * changes, so it can only happen on a chain's first step. The model is more
   * general and lets any exchange be `NotBuilt`, so every property proved
   * here holds for that case too.
   * `Failed` covers a request that was sent but failed, a status other than
   * 200, an unreadable body and a body that is not valid JSON. `Body` is a
   * decoded response: its API error messages (in order) and its timeline
   * instructions.
   */
  datatype Response =
    | NotBuilt
    | Failed
    | Body(errors: seq<string>, instructions: seq<Instruction>)

  /**
   * One request as the outside world answers it: the clock reading when the
   * throttle is consulted, how long the call takes once issued, and the
   * response.
   */
  datatype Exchange = Exchange(calledAt: int, latency: nat, response: Response)

  /** A request as issued: the cursor it carries and when it left. */
  datatype Request = Request(cursor: string, issuedAt: int)

  /** What a chain reads but never changes: `keepCursor`, `variables["count"]` and `Delay`. */
  datatype Config = Config(keepCursor: bool, pageSize: int, delay: int)

  /**
   * The state a chain carries from step to step: the stored cursor
   * (`variables["cursor"]`), the accumulated API errors, `running`,
   * `lastRequest`, every tweet handed to the consumer in this run and every
   * request issued in this run.
   */
  datatype ChainState = ChainState(
    cursor: string,
    attempts: seq<string>,
    running: bool,
    lastRequest: Option<int>,
    delivered: seq<CachedTweet>,
    sent: seq<Request>)

  /** Whether another step follows a fully scanned page, and the cursor it will ask for. */
  datatype Decision = Rerun(cursor: string) | Finish

  /** The state in which `Run` makes the first step of a chain. */
  function StartState(cursor: string, lastRequest: Option<int>): ChainState
  {
    ChainState(cursor, [], true, lastRequest, [], [])
  }

  /** The response carries API errors. */
  predicate IsApiError(x: Exchange)
  {
    x.response.Body? && |x.response.errors| > 0
  }

  /** The response is a page without API errors. */
  predicate IsPage(x: Exchange)
  {
    x.response.Body? && x.response.errors == []
  }

  /** The continuation rule applied after a page was scanned to its end. */
  function Continuation(cfg: Config, scan: PageScan, stored: string): Decision
  {
    if cfg.keepCursor then
      if cfg.pageSize <= scan.count then
        Rerun(if scan.count == scan.empty then scan.cursor else stored)
      else Finish
    else if scan.cursor != "" then Rerun(scan.cursor)
    else Finish
  }

  /**
   * The throttled request of a step: it leaves once the throttle's wait is
   * over, carries the stored cursor, and `lastRequest` is stamped when the
   * call returns.
   */
  function Issue(cfg: Config, st: ChainState, x: Exchange): ChainState
  {
    var issuedAt := x.calledAt + Wait(st.lastRequest, x.calledAt, cfg.delay);
    st.(lastRequest := Some(issuedAt + x.latency),
        sent := st.sent + [Request(st.cursor, issuedAt)])
  }

  /**
   * One step that gets past the retry bound. A request that cannot be built
   * ends the chain at once; otherwise the request is issued and its response
   * classified.
   */
  function Step(cfg: Config, st: ChainState, x: Exchange, accept: Consumer): ChainState
  {
    match x.response
    case NotBuilt => st.(running := false)
    case Failed => Issue(cfg, st, x).(running := false)
    case Body(errors, instructions) =>
      var st := Issue(cfg, st, x);
      if |errors| > 0 then st.(attempts := st.attempts + [errors[0]])
      else
        var scan := Scan(Entries(instructions), st.delivered, accept);
        if scan.refused then st.(delivered := scan.delivered)
        else match Continuation(cfg, scan, st.cursor)
          case Rerun(c) => st.(cursor := c, attempts := [], delivered := scan.delivered)
          case Finish => st.(running := false, delivered := scan.delivered)
  }

  /** The chain driven by the exchanges `xs`, until it ends or they run out. */
  function RunChain(cfg: Config, st: ChainState, xs: seq<Exchange>, accept: Consumer): ChainState
    decreases |xs|
  {
    if !st.running then st
    else if |st.attempts| > MaxAttempts then st.(running := false)
    else if xs == [] then st
    else RunChain(cfg, Step(cfg, st, xs[0], accept), xs[1..], accept)
  }

  /**
   * One step issues exactly one request, unless the request cannot be built,
   * in which case it only ends the chain. Earlier requests stay, and the
   * record of deliveries only grows.
   */
  lemma StepRecord(cfg: Config, st: ChainState, x: Exchange, accept: Consumer)
    ensures var s1 := Step(cfg, st, x, accept);
            (x.response.NotBuilt? ==> s1 == st.(running := false)) &&
            (!x.response.NotBuilt? ==> |s1.sent| == |st.sent| + 1 && s1.sent[..|st.sent|] == st.sent) &&
            |st.delivered| <= |s1.delivered| && s1.delivered[..|st.delivered|] == st.delivered
  {
    var s0 := Issue(cfg, st, x);
    assert s0.sent[..|st.sent|] == st.sent;
    if IsPage(x) {
      ScanExtends(Entries(x.response.instructions), st.delivered, accept);
    }
  }

  /**
   * A chain only adds to its record: earlier requests and deliveries stay,
   * at most one request per exchange is issued, a chain that has ended stays
   * as it is, and a chain still running has used every exchange without
   * passing the retry bound.
   */
  lemma {:induction false} ChainBookkeeping(cfg: Config, st: ChainState, xs: seq<Exchange>, accept: Consumer)
    ensures var r := RunChain(cfg, st, xs, accept);
            |st.sent| <= |r.sent| <= |st.sent| + |xs| && r.sent[..|st.sent|] == st.sent &&
            |st.delivered| <= |r.delivered| && r.delivered[..|st.delivered|] == st.delivered &&
            (!st.running ==> r == st) &&
            (r.running ==> |r.sent| == |st.sent| + |xs| && |r.attempts| <= MaxAttempts)
    decreases |xs|
  {
    if st.running && |st.attempts| <= MaxAttempts && xs != [] {
      var s1 := Step(cfg, st, xs[0], accept);
      StepRecord(cfg, st, xs[0], accept);
      ChainBookkeeping(cfg, s1, xs[1..], accept);
      var r := RunChain(cfg, s1, xs[1..], accept);
      assert r.sent[..|s1.sent|][..|st.sent|] == r.sent[..|st.sent|];
      assert r.delivered[..|s1.delivered|][..|st.delivered|] == r.delivered[..|st.delivered|];
    }
  }

  /**
   * The retry bound. Against responses that all carry API errors, a running
   * chain with `a` errors recorded issues `MaxAttempts + 1 - a` more
   * requests, all for the same cursor, then ends; with fewer such responses
   * it issues one per response and is still running.
   */
  lemma {:induction false} RetryCeiling(cfg: Config, st: ChainState, xs: seq<Exchange>, accept: Consumer)
    requires st.running && |st.attempts| <= MaxAttempts + 1
    requires forall i :: 0 <= i < |xs| ==> IsApiError(xs[i])
    ensures var r := RunChain(cfg, st, xs, accept);
            var n := MaxAttempts + 1 - |st.attempts|;
            var m := if |xs| < n then |xs| else n;
            r.running == (|xs| < n) &&
            |r.sent| == |st.sent| + m && |r.attempts| == |st.attempts| + m &&
            r.cursor == st.cursor && r.delivered == st.delivered &&
            forall i :: |st.sent| <= i < |r.sent| ==> r.sent[i].cursor == st.cursor
    decreases |xs|
  {
    if |st.attempts| <= MaxAttempts && xs != [] {
      assert IsApiError(xs[0]);
      var s1 := Step(cfg, st, xs[0], accept);
      forall i | 0 <= i < |xs[1..]| ensures IsApiError(xs[1..][i]) {
        assert xs[1..][i] == xs[i + 1];
      }
      RetryCeiling(cfg, s1, xs[1..], accept);
      ChainBookkeeping(cfg, s1, xs[1..], accept);
      var r := RunChain(cfg, s1, xs[1..], accept);
      assert r.sent[|st.sent|] == r.sent[..|s1.sent|][|st.sent|];
    }
  }

  /**
   * An endpoint that only ever answers with API errors gets exactly eleven
   * requests from a fresh chain, after which the chain has ended.
   */
  lemma AlwaysApiErrors(cfg: Config, cursor: string, lastRequest: Option<int>, xs: seq<Exchange>, accept: Consumer)
    requires |xs| >= MaxAttempts + 1
    requires forall i :: 0 <= i < |xs| ==> IsApiError(xs[i])
    ensures var r := RunChain(cfg, StartState(cursor, lastRequest), xs, accept);
            !r.running && |r.sent| == 11 && |r.attempts| == 11 &&
            forall i :: 0 <= i < |r.sent| ==> r.sent[i].cursor == cursor
  {
    RetryCeiling(cfg, StartState(cursor, lastRequest), xs, accept);
  }

  /** A request that fails ends the chain after that one request, with the cursor left alone. */
  lemma TransportFailureEndsChain(cfg: Config, st: ChainState, xs: seq<Exchange>, accept: Consumer)
    requires st.running && |st.attempts| <= MaxAttempts
    requires xs != [] && xs[0].response.Failed?
    ensures var r := RunChain(cfg, st, xs, accept);
            !r.running && |r.sent| == |st.sent| + 1 && r.cursor == st.cursor && r.attempts == st.attempts
  {
  }

  /**
   * A request that cannot be built ends the chain before anything is sent:
   * no request, no wait, no new `lastRequest`, and the cursor and the error
   * list are left alone.
   */
  lemma UnbuiltRequestEndsChain(cfg: Config, st: ChainState, xs: seq<Exchange>, accept: Consumer)
    requires st.running && |st.attempts| <= MaxAttempts
    requires xs != [] && xs[0].response.NotBuilt?
    ensures RunChain(cfg, st, xs, accept) == st.(running := false)
  {
  }

  /**
   * The continuation rule in terms of the page. After a page the consumer
   * took in full: with `keepCursor`, the chain goes on exactly when the page
   * held at least `pageSize` items, and the stored cursor moves to the
   * page's last "Bottom" cursor only if every item was empty; without
   * `keepCursor`, it goes on exactly when the page has a non-empty "Bottom"
   * cursor, which becomes the stored cursor. Going on restarts the error
   * count; ending leaves the stored cursor alone. The consumer was handed
   * exactly the page's non-empty tweets.
   */
  lemma PageContinuation(cfg: Config, st: ChainState, x: Exchange, accept: Consumer)
    requires st.running && IsPage(x)
    requires !Scan(Entries(x.response.instructions), st.delivered, accept).refused
    ensures var es := Entries(x.response.instructions);
            var r := Step(cfg, st, x, accept);
            r.delivered == st.delivered + Tweets(es) &&
            (r.running ==> r.attempts == []) &&
            (cfg.keepCursor ==>
               r.running == (cfg.pageSize <= Items(es)) &&
               r.cursor == (if r.running && Items(es) == Empties(es) then LastBottom(es) else st.cursor)) &&
            (!cfg.keepCursor ==>
               r.running == (LastBottom(es) != "") &&
               r.cursor == (if r.running then LastBottom(es) else st.cursor))
  {
    ScanCounts(Entries(x.response.instructions), st.delivered, accept);
    ScanAccepted(Entries(x.response.instructions), st.delivered, accept);
  }

  /**
   * A refusal by the consumer does not end the chain: the page is asked for
   * again, with the same cursor, and the recorded API errors are kept.
   */
  lemma RefusalRepeatsPage(cfg: Config, st: ChainState, x: Exchange, y: Exchange, rest: seq<Exchange>, accept: Consumer)
    requires st.running && |st.attempts| <= MaxAttempts
    requires IsPage(x) && Scan(Entries(x.response.instructions), st.delivered, accept).refused
    ensures var r := RunChain(cfg, st, [x, y] + rest, accept);
            |r.sent| >= |st.sent| + 1 && r.sent[|st.sent|].cursor == st.cursor &&
            (!y.response.NotBuilt? ==> |r.sent| >= |st.sent| + 2 && r.sent[|st.sent| + 1].cursor == st.cursor)
  {
    var xs := [x, y] + rest;
    var s1 := Step(cfg, st, x, accept);
    assert s1.running && s1.cursor == st.cursor && s1.attempts == st.attempts;
    assert xs[1..] == [y] + rest && ([y] + rest)[1..] == rest;
    var s2 := Step(cfg, s1, y, accept);
    ChainBookkeeping(cfg, s2, rest, accept);
    var r := RunChain(cfg, s2, rest, accept);
    if !y.response.NotBuilt? {
      assert r.sent[|st.sent|] == r.sent[..|s2.sent|][|st.sent|];
      assert r.sent[|st.sent| + 1] == r.sent[..|s2.sent|][|st.sent| + 1];
    }
  }

  /**
   * A consumer that refuses every tweet, offered pages that each hold a
   * tweet, keeps the chain going forever: every exchange is used, every
   * request carries the same cursor, and the retry bound never comes into
   * play because refusals are not recorded as errors.
   */
  lemma {:induction false} RefusingConsumerNeverEnds(cfg: Config, st: ChainState, xs: seq<Exchange>, accept: Consumer)
    requires st.running && |st.attempts| <= MaxAttempts
    requires forall h, t :: !accept(h, t)
    requires forall i :: 0 <= i < |xs| ==> IsPage(xs[i]) && Tweets(Entries(xs[i].response.instructions)) != []
    ensures var r := RunChain(cfg, st, xs, accept);
            r.running && |r.sent| == |st.sent| + |xs| && r.cursor == st.cursor && r.attempts == st.attempts &&
            forall i :: |st.sent| <= i < |r.sent| ==> r.sent[i].cursor == st.cursor
    decreases |xs|
  {
    if xs != [] {
      var es := Entries(xs[0].response.instructions);
      ScanAccepted(es, st.delivered, accept);
      var ts := Tweets(es);
      assert |ts| > 0;
      assert !accept(st.delivered + ts[..0], ts[0]);
      var s1 := Step(cfg, st, xs[0], accept);
      forall i | 0 <= i < |xs[1..]|
        ensures IsPage(xs[1..][i]) && Tweets(Entries(xs[1..][i].response.instructions)) != []
      {
        assert xs[1..][i] == xs[i + 1];
      }
      RefusingConsumerNeverEnds(cfg, s1, xs[1..], accept);
      ChainBookkeeping(cfg, s1, xs[1..], accept);
      var r := RunChain(cfg, s1, xs[1..], accept);
      assert r.sent[|st.sent|] == r.sent[..|s1.sent|][|st.sent|];
    }
  }

  /**
   * The requests of a run leave at least `Delay` apart, and `lastRequest` is
   * never earlier than the last of them.
   */
  ghost predicate Spaced(st: ChainState, delay: int)
  {
    (forall i :: 0 < i < |st.sent| ==> st.sent[i].issuedAt >= st.sent[i - 1].issuedAt + delay) &&
    (|st.sent| > 0 ==> st.lastRequest.Some? && st.lastRequest.value >= st.sent[|st.sent| - 1].issuedAt)
  }

  /**
   * One step keeps the spacing: a request it issues leaves at least `Delay`
   * after the `lastRequest` it started from, which is no earlier than the
   * previous request; a request that cannot be built adds nothing.
   */
  lemma StepSpacing(cfg: Config, st: ChainState, x: Exchange, accept: Consumer)
    requires Spaced(st, cfg.delay)
    ensures var s1 := Step(cfg, st, x, accept);
            Spaced(s1, cfg.delay) && |st.sent| <= |s1.sent| <= |st.sent| + 1 && s1.sent[..|st.sent|] == st.sent &&
            (|s1.sent| > |st.sent| && st.lastRequest.Some? ==> s1.sent[|st.sent|].issuedAt >= st.lastRequest.value + cfg.delay)
  {
    if !x.response.NotBuilt? {
      var s0 := Issue(cfg, st, x);
      var s1 := Step(cfg, st, x, accept);
      assert s1.sent == s0.sent && s1.lastRequest == s0.lastRequest;
      assert s0.sent[..|st.sent|] == st.sent;
    }
  }

  /**
   * The first request a chain issues leaves at least `Delay` after the
   * `lastRequest` it started from, and spacing, once it holds, is kept.
   */
  lemma {:induction false} ChainSpacing(cfg: Config, st: ChainState, xs: seq<Exchange>, accept: Consumer)
    requires Spaced(st, cfg.delay)
    ensures var r := RunChain(cfg, st, xs, accept);
            Spaced(r, cfg.delay) &&
            (|r.sent| > |st.sent| && st.lastRequest.Some? ==>
               r.sent[|st.sent|].issuedAt >= st.lastRequest.value + cfg.delay)
    decreases |xs|
  {
    if st.running && |st.attempts| <= MaxAttempts && xs != [] {
      var s1 := Step(cfg, st, xs[0], accept);
      StepSpacing(cfg, st, xs[0], accept);
      ChainSpacing(cfg, s1, xs[1..], accept);
      ChainBookkeeping(cfg, s1, xs[1..], accept);
      if !xs[0].response.NotBuilt? {
        var r := RunChain(cfg, s1, xs[1..], accept);
        assert r.sent[|st.sent|] == r.sent[..|s1.sent|][|st.sent|];
      }
    }
  }
}
