/**
 * One page of the bookmarks timeline and the pass the scraper makes over it:
 * instructions in order, each instruction's entries in order. Item entries
 * are counted and, unless their tweet id is empty, handed to the consumer;
 * "Bottom" cursor entries give the page cursor; other entries are ignored.
 */
module Timeline {

  /** The `Legacy` part of a tweet result: its id (empty when the tweet is gone) and its text. */
  datatype Legacy = Legacy(idStr: string, fullText: string)

  /** The user object found under `Core.UserResults.Result`. */
  datatype User = User(restId: string, screenName: string)

  /**
   * `ItemContent.TweetResults.Result` of an item entry: its own `Legacy` and
   * user, and the ones nested under `Tweet` (zero values when that nesting is
   * absent).
   */
  datatype TweetResult = TweetResult(legacy: Legacy, user: User, tweetLegacy: Legacy, tweetUser: User)

  /** What the consumer callback receives. */
  datatype CachedTweet = CachedTweet(user: User, tweet: Legacy)

  /** A `CursorType` other than `"Bottom"`. */
  type OtherCursorName = name: string | name != "Bottom" witness ""

  /** A cursor entry's `CursorType`: `"Bottom"`, or any other value. */
  datatype CursorType = Bottom | OtherCursorType(name: OtherCursorName)

  /** An `EntryType` that the page pass ignores: neither an item nor a cursor. */
  type OtherEntryType = t: string | t != "TimelineTimelineItem" && t != "TimelineTimelineCursor" witness ""

  /** An entry, by its `EntryType`. */
  datatype Entry =
    | TimelineItem(result: TweetResult)                      // "TimelineTimelineItem"
    | TimelineCursor(cursorType: CursorType, value: string)  // "TimelineTimelineCursor"
    | OtherEntry(entryType: OtherEntryType)

  datatype Instruction = Instruction(entries: seq<Entry>)

  /**
   * The consumer callback `OnNewTweet`, as an oracle: its answer may depend on
   * the tweets it was handed before in the same run (oldest first) and on the
   * tweet now offered. `false` means "do not go on with this page". It has no
   * side effects: throttled calls made from the callback are not modelled.
   */
  type Consumer = (seq<CachedTweet>, CachedTweet) -> bool

  /** The tweet an item stands for: the top-level one, or the nested one when the top-level id is empty. */
  function Resolve(r: TweetResult): (t: CachedTweet)
    ensures r.legacy.idStr != "" ==> t == CachedTweet(r.user, r.legacy)
    ensures r.legacy.idStr == "" ==> t == CachedTweet(r.tweetUser, r.tweetLegacy)
    ensures t.tweet.idStr == "" <==> r.legacy.idStr == "" && r.tweetLegacy.idStr == ""
  {
    if r.legacy.idStr == "" then CachedTweet(r.tweetUser, r.tweetLegacy)
    else CachedTweet(r.user, r.legacy)
  }

  /** The entries of a page, instruction after instruction. */
  function Entries(instructions: seq<Instruction>): seq<Entry>
  {
    if instructions == [] then []
    else Entries(instructions[..|instructions| - 1]) + instructions[|instructions| - 1].entries
  }

  /**
   * The locals of the page pass: items counted, empty items counted, the page
   * cursor, every tweet handed to the consumer so far (earlier pages of the
   * run included) and whether the consumer refused one.
   */
  datatype PageScan = PageScan(count: nat, empty: nat, cursor: string, delivered: seq<CachedTweet>, refused: bool)

  /** The effect of one entry; after a refusal nothing more is looked at. */
  function ScanEntry(s: PageScan, e: Entry, accept: Consumer): PageScan
  {
    if s.refused then s
    else match e
      case TimelineItem(r) =>
        var t := Resolve(r);
        if t.tweet.idStr == "" then s.(count := s.count + 1, empty := s.empty + 1)
        else if accept(s.delivered, t) then s.(count := s.count + 1, delivered := s.delivered + [t])
        else s.(delivered := s.delivered + [t], refused := true)
      case TimelineCursor(cursorType, value) =>
        if cursorType == Bottom then s.(cursor := value) else s
      case OtherEntry(_) => s
  }

  /** The page pass over `es`, as a fold from the first entry to the last. */
  function Scan(es: seq<Entry>, before: seq<CachedTweet>, accept: Consumer): PageScan
  {
    if es == [] then PageScan(0, 0, "", before, false)
    else ScanEntry(Scan(es[..|es| - 1], before, accept), es[|es| - 1], accept)
  }

  // Independent descriptions of what the pass should find.

  /** Number of item entries. */
  function Items(es: seq<Entry>): nat
  {
    if es == [] then 0
    else Items(es[..|es| - 1]) + (if es[|es| - 1].TimelineItem? then 1 else 0)
  }

  /** Number of item entries whose tweet id is empty at both nestings. */
  function Empties(es: seq<Entry>): nat
  {
    if es == [] then 0
    else
      var e := es[|es| - 1];
      Empties(es[..|es| - 1]) + (if e.TimelineItem? && Resolve(e.result).tweet.idStr == "" then 1 else 0)
  }

  /** The tweets of the non-empty items, in entry order. */
  function Tweets(es: seq<Entry>): seq<CachedTweet>
  {
    if es == [] then []
    else
      var e := es[|es| - 1];
      Tweets(es[..|es| - 1]) + (if e.TimelineItem? && Resolve(e.result).tweet.idStr != "" then [Resolve(e.result)] else [])
  }

  /** The value of the last "Bottom" cursor entry, or "" if there is none. */
  function LastBottom(es: seq<Entry>): string
  {
    if es == [] then ""
    else
      var e := es[|es| - 1];
      if e.TimelineCursor? && e.cursorType == Bottom then e.value else LastBottom(es[..|es| - 1])
  }

  /** The consumer said yes to each of `ts` when offered it after `before` and the earlier ones. */
  ghost predicate AllAccepted(before: seq<CachedTweet>, ts: seq<CachedTweet>, accept: Consumer)
  {
    forall i :: 0 <= i < |ts| ==> accept(before + ts[..i], ts[i])
  }

  /** The pass only appends to what was handed over before it. */
  lemma {:induction false} ScanExtends(es: seq<Entry>, before: seq<CachedTweet>, accept: Consumer)
    ensures var d := Scan(es, before, accept).delivered;
            |before| <= |d| && d[..|before|] == before
  {
    if es != [] {
      var p := es[..|es| - 1];
      ScanExtends(p, before, accept);
      var d := Scan(p, before, accept).delivered;
      assert Scan(es, before, accept) == ScanEntry(Scan(p, before, accept), es[|es| - 1], accept);
      assert forall t :: (d + [t])[..|before|] == d[..|before|];
    }
  }

  /** A sequence that extends `short` agrees with it on every prefix of `short`. */
  lemma PrefixAgrees(short: seq<CachedTweet>, long: seq<CachedTweet>, k: nat)
    requires |short| <= |long| && long[..|short|] == short && k < |short|
    ensures long[..k + 1] == short[..k + 1] && long[..k] == short[..k] && long[k] == short[k]
  {
    assert long[..k + 1] == long[..|short|][..k + 1];
    assert long[..k] == long[..|short|][..k];
  }

  /** An accepted run followed by one more accepted tweet is an accepted run. */
  lemma AcceptedSnoc(before: seq<CachedTweet>, ts: seq<CachedTweet>, t: CachedTweet, accept: Consumer)
    requires AllAccepted(before, ts, accept) && accept(before + ts, t)
    ensures AllAccepted(before, ts + [t], accept)
  {
    var te := ts + [t];
    forall i | 0 <= i < |te| ensures accept(before + te[..i], te[i]) {
      if i < |ts| {
        assert te[..i] == ts[..i] && te[i] == ts[i];
      } else {
        assert te[..i] == ts && te[i] == t;
      }
    }
  }

  /**
   * What the page pass counts. Always `empty <= count`; unless the consumer
   * refused a tweet, every item and every empty item was counted and the
   * page cursor is the last "Bottom" cursor.
   */
  lemma {:induction false} ScanCounts(es: seq<Entry>, before: seq<CachedTweet>, accept: Consumer)
    ensures var s := Scan(es, before, accept);
            s.empty <= s.count &&
            (!s.refused ==> s.count == Items(es) && s.empty == Empties(es) && s.cursor == LastBottom(es))
  {
    if es != [] {
      var p := es[..|es| - 1];
      ScanCounts(p, before, accept);
      assert Scan(es, before, accept) == ScanEntry(Scan(p, before, accept), es[|es| - 1], accept);
      if !Scan(es, before, accept).refused {
        assert !Scan(p, before, accept).refused;
      }
    }
  }

  /**
   * What the page pass hands to the consumer when it refuses nothing: exactly
   * the non-empty tweets, in entry order, each of them accepted.
   */
  lemma {:induction false} ScanAccepted(es: seq<Entry>, before: seq<CachedTweet>, accept: Consumer)
    ensures var s := Scan(es, before, accept);
            !s.refused ==> s.delivered == before + Tweets(es) && AllAccepted(before, Tweets(es), accept)
  {
    if es != [] {
      var p, e := es[..|es| - 1], es[|es| - 1];
      assert es == p + [e];
      ScanSnoc(p, e, before, accept);
      var sp := Scan(p, before, accept);
      if !Scan(es, before, accept).refused {
        assert !sp.refused;
        ScanAccepted(p, before, accept);
        var tp := Tweets(p);
        if e.TimelineItem? && Resolve(e.result).tweet.idStr != "" {
          var t := Resolve(e.result);
          assert Tweets(es) == tp + [t];
          AcceptedSnoc(before, tp, t, accept);
        } else {
          assert Tweets(es) == tp;
        }
      }
    }
  }

  /**
   * What the page pass hands to the consumer when it refuses a tweet: the
   * non-empty tweets up to and including the refused one, which is the
   * first refusal; every earlier one was accepted and none after it was
   * offered.
   */
  lemma {:induction false} ScanRefusal(es: seq<Entry>, before: seq<CachedTweet>, accept: Consumer)
    ensures var s := Scan(es, before, accept);
            s.refused ==>
              exists k :: 0 <= k < |Tweets(es)| &&
                s.delivered == before + Tweets(es)[..k + 1] &&
                AllAccepted(before, Tweets(es)[..k], accept) &&
                !accept(before + Tweets(es)[..k], Tweets(es)[k])
  {
    if es != [] {
      var p, e := es[..|es| - 1], es[|es| - 1];
      assert es == p + [e];
      ScanSnoc(p, e, before, accept);
      var sp := Scan(p, before, accept);
      var tp := Tweets(p);
      var te := Tweets(es);
      assert te[..|tp|] == tp;
      if sp.refused {
        ScanRefusal(p, before, accept);
        var k :| 0 <= k < |tp| && sp.delivered == before + tp[..k + 1] &&
                 AllAccepted(before, tp[..k], accept) && !accept(before + tp[..k], tp[k]);
        PrefixAgrees(tp, te, k);
      } else if Scan(es, before, accept).refused {
        ScanAccepted(p, before, accept);
        var t := Resolve(e.result);
        assert te == tp + [t];
        assert te[..|tp|] == tp && te[..|tp| + 1] == te;
      }
    }
  }

  /** Once the consumer has refused, further entries change nothing. */
  lemma {:induction false} ScanRefusedStable(es: seq<Entry>, more: seq<Entry>, before: seq<CachedTweet>, accept: Consumer)
    requires Scan(es, before, accept).refused
    ensures Scan(es + more, before, accept) == Scan(es, before, accept)
  {
    if more != [] {
      var m := more[..|more| - 1];
      assert (es + more)[..|es + more| - 1] == es + m;
      assert es + more != [] && (es + more)[|es + more| - 1] == more[|more| - 1];
      assert Scan(es + more, before, accept) == ScanEntry(Scan(es + m, before, accept), more[|more| - 1], accept);
      ScanRefusedStable(es, m, before, accept);
    } else {
      assert es + more == es;
    }
  }

  /**
   * The nested loops over instructions and entries, with the counters as
   * locals; a refusal by the consumer ends the pass at once.
   */
  method ScanPage(instructions: seq<Instruction>, before: seq<CachedTweet>, accept: Consumer)
    returns (s: PageScan)
    ensures s == Scan(Entries(instructions), before, accept)
  {
    var cursor, count, empty, delivered := "", 0, 0, before;
    for i := 0 to |instructions|
      invariant PageScan(count, empty, cursor, delivered, false) == Scan(Entries(instructions[..i]), before, accept)
    {
      var entries := instructions[i].entries;
      ghost var done := Entries(instructions[..i]);
      EntriesNext(instructions, i);
      for j := 0 to |entries|
        invariant PageScan(count, empty, cursor, delivered, false) == Scan(done + entries[..j], before, accept)
      {
        ScanNext(done, entries, j, before, accept);
        ghost var pre := PageScan(count, empty, cursor, delivered, false);
        match entries[j] {
          case TimelineItem(result) =>
            var t := Resolve(result);
            if t.tweet.idStr == "" {
              empty := empty + 1;
            } else {
              var ok := accept(delivered, t);
              delivered := delivered + [t];
              if !ok {
                s := PageScan(count, empty, cursor, delivered, true);
                RefusalEndsPage(instructions, i, j + 1, before, accept);
                return;
              }
            }
            count := count + 1;
          case TimelineCursor(cursorType, value) =>
            if cursorType == Bottom {
              cursor := value;
            }
          case OtherEntry(_) =>
        }
        assert PageScan(count, empty, cursor, delivered, false) == ScanEntry(pre, entries[j], accept);
      }
    }
    assert instructions[..|instructions|] == instructions;
    s := PageScan(count, empty, cursor, delivered, false);
  }

  /** The entries up to instruction `i + 1` are those up to `i` followed by instruction `i`'s. */
  lemma EntriesNext(instructions: seq<Instruction>, i: nat)
    requires i < |instructions|
    ensures var entries := instructions[i].entries;
            Entries(instructions[..i]) + entries[..0] == Entries(instructions[..i]) &&
            Entries(instructions[..i]) + entries[..|entries|] == Entries(instructions[..i + 1])
  {
    assert instructions[..i + 1][..i] == instructions[..i];
    assert instructions[i].entries[..|instructions[i].entries|] == instructions[i].entries;
  }

  /** Entry `j` of a block extends the pass over the entries before it by one `ScanEntry`. */
  lemma ScanNext(done: seq<Entry>, entries: seq<Entry>, j: nat, before: seq<CachedTweet>, accept: Consumer)
    requires j < |entries|
    ensures Scan(done + entries[..j + 1], before, accept) ==
            ScanEntry(Scan(done + entries[..j], before, accept), entries[j], accept)
  {
    var prefix := done + entries[..j];
    assert done + entries[..j + 1] == prefix + [entries[j]];
    ScanSnoc(prefix, entries[j], before, accept);
  }

  /** The pass over one more entry is one more `ScanEntry`. */
  lemma ScanSnoc(es: seq<Entry>, e: Entry, before: seq<CachedTweet>, accept: Consumer)
    ensures Scan(es + [e], before, accept) == ScanEntry(Scan(es, before, accept), e, accept)
  {
    assert (es + [e])[..|es|] == es;
  }

  /** A refusal inside instruction `i` decides the pass over the whole page. */
  lemma RefusalEndsPage(instructions: seq<Instruction>, i: nat, j: nat, before: seq<CachedTweet>, accept: Consumer)
    requires i < |instructions| && j <= |instructions[i].entries|
    requires Scan(Entries(instructions[..i]) + instructions[i].entries[..j], before, accept).refused
    ensures Scan(Entries(instructions), before, accept) ==
            Scan(Entries(instructions[..i]) + instructions[i].entries[..j], before, accept)
  {
    var whole := Entries(instructions[..i]) + instructions[i].entries[..j];
    EntriesSplit(instructions, i, j);
    var all := Entries(instructions);
    assert all == whole + all[|whole|..];
    ScanRefusedStable(whole, all[|whole|..], before, accept);
  }

  /** The entries before entry `j` of instruction `i` are a prefix of the page's entries. */
  lemma {:induction false} EntriesSplit(instructions: seq<Instruction>, i: nat, j: nat)
    requires i < |instructions| && j <= |instructions[i].entries|
    ensures var prefix := Entries(instructions[..i]) + instructions[i].entries[..j];
            |prefix| <= |Entries(instructions)| && Entries(instructions)[..|prefix|] == prefix
  {
    if i == |instructions| - 1 {
      assert instructions[..|instructions| - 1] == instructions[..i];
    } else {
      var init := instructions[..|instructions| - 1];
      assert init[..i] == instructions[..i];
      EntriesSplit(init, i, j);
    }
  }
}
