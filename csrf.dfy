/**
 * Derivation of the CSRF token from the session cookie: the cookie is split
 * on `;`, each segment is cut once at its first `=`, both halves are trimmed
 * of spaces, and the first segment whose key is `ct0` supplies the token.
 */
module Csrf {
  import opened GoStrings

  /** The cookie name that carries the CSRF token. */
  const CsrfCookie := "ct0"

  /**
   * What a scan of the cookie finds. `MissingValue` is a segment whose key is
   * `ct0` but that has no `=`: the scraper then indexes a second part that
   * does not exist, which is a run-time panic in Go.
   */
  datatype Lookup = Absent | Found(token: string) | MissingValue {
    /** The token found, or `current` when there is none. */
    function TokenOr(current: string): string
    {
      if Found? then token else current
    }
  }

  /** The text of a segment before its first `=` (all of it if there is none), trimmed. */
  function Key(segment: string): string
  {
    Trim(SplitOnce(segment, '=')[0], ' ')
  }

  /**
   * What one segment says on its own: nothing when its key is not `ct0`,
   * otherwise the trimmed second part of its cut at `=`, or the
   * out-of-range case when there is no second part.
   */
  function SegmentOutcome(segment: string): Lookup
  {
    var parts := SplitOnce(segment, '=');
    if Trim(parts[0], ' ') != CsrfCookie then Absent
    else if |parts| == 2 then Found(Trim(parts[1], ' '))
    else MissingValue
  }

  /** A scan in order that stops at the first segment whose outcome is not `Absent`. */
  function FirstDecided(segments: seq<string>, outcome: string -> Lookup): Lookup
  {
    if segments == [] then Absent
    else if outcome(segments[0]) != Absent then outcome(segments[0])
    else FirstDecided(segments[1..], outcome)
  }

  /** The scan over `;`-segments in order; the first `ct0` segment decides. */
  function SegmentsLookup(segments: seq<string>): Lookup
  {
    FirstDecided(segments, SegmentOutcome)
  }

  /** The outcome of scanning a whole cookie string. */
  function CookieLookup(cookie: string): Lookup
  {
    SegmentsLookup(Split(cookie, ';'))
  }

  /** Segment `i` is the first whose key is `ct0`. */
  ghost predicate FirstCsrfSegment(segments: seq<string>, i: int)
  {
    0 <= i < |segments| && Key(segments[i]) == CsrfCookie &&
    forall j :: 0 <= j < i ==> Key(segments[j]) != CsrfCookie
  }

  /** What the first `ct0` segment yields: the trimmed text after its first `=`, which may itself contain `=`. */
  function SegmentValue(segment: string): Lookup
  {
    if '=' in segment then Found(Trim(segment[IndexOf(segment, '=') + 1..], ' '))
    else MissingValue
  }

  /**
   * A segment decides the scan exactly when its key is `ct0`, and then it
   * yields `SegmentValue`.
   */
  lemma SegmentDecides(segment: string)
    ensures SegmentOutcome(segment) == if Key(segment) == CsrfCookie then SegmentValue(segment) else Absent
  {
  }

  /** The generic scan finds nothing exactly when every outcome is `Absent`. */
  lemma {:induction false} FirstDecidedAbsent(segments: seq<string>, outcome: string -> Lookup)
    ensures FirstDecided(segments, outcome) == Absent <==>
              forall i :: 0 <= i < |segments| ==> outcome(segments[i]) == Absent
  {
    if segments != [] && outcome(segments[0]) == Absent {
      FirstDecidedAbsent(segments[1..], outcome);
      assert forall i :: 1 <= i < |segments| ==> segments[i] == segments[1..][i - 1];
    }
  }

  /** The generic scan returns the outcome of the first segment that has one. */
  lemma {:induction false} FirstDecidedFirst(segments: seq<string>, outcome: string -> Lookup, i: int)
    requires 0 <= i < |segments| && outcome(segments[i]) != Absent
    requires forall j :: 0 <= j < i ==> outcome(segments[j]) == Absent
    ensures FirstDecided(segments, outcome) == outcome(segments[i])
  {
    if i > 0 {
      assert outcome(segments[0]) == Absent;
      assert forall j :: 0 <= j < i - 1 ==> segments[1..][j] == segments[j + 1];
      FirstDecidedFirst(segments[1..], outcome, i - 1);
    }
  }

  /** The scan finds nothing exactly when no segment's key is `ct0`. */
  lemma LookupAbsent(segments: seq<string>)
    ensures SegmentsLookup(segments) == Absent <==>
              forall i :: 0 <= i < |segments| ==> Key(segments[i]) != CsrfCookie
  {
    FirstDecidedAbsent(segments, SegmentOutcome);
    forall i | 0 <= i < |segments|
      ensures SegmentOutcome(segments[i]) == Absent <==> Key(segments[i]) != CsrfCookie
    {
      SegmentDecides(segments[i]);
    }
  }

  /**
   * When some segment's key is `ct0`, the FIRST such segment decides: its
   * trimmed value, or the out-of-range case if it has no `=`. Later
   * segments, `ct0` or not, play no part.
   */
  lemma LookupFirst(segments: seq<string>, i: int)
    requires FirstCsrfSegment(segments, i)
    ensures SegmentsLookup(segments) == SegmentValue(segments[i])
  {
    forall j | 0 <= j <= i
      ensures SegmentOutcome(segments[j]) == if j < i then Absent else SegmentValue(segments[i])
    {
      SegmentDecides(segments[j]);
    }
    FirstDecidedFirst(segments, SegmentOutcome, i);
  }

  /** A token that is found never starts or ends with a space. */
  lemma {:induction false} FoundTokenTrimmed(segments: seq<string>)
    requires SegmentsLookup(segments).Found?
    ensures var t := SegmentsLookup(segments).token;
            t == [] || (t[0] != ' ' && t[|t| - 1] != ' ')
  {
    if SegmentOutcome(segments[0]) == Absent {
      FoundTokenTrimmed(segments[1..]);
    } else {
      TrimEnds(SplitOnce(segments[0], '=')[1], ' ');
    }
  }

  /**
   * Worked case: `ct0=` followed by any value. The value is taken whole, even
   * when it contains further `=` characters, and only its outer spaces go.
   */
  lemma CsrfSegmentWithEquals(value: string)
    ensures SegmentsLookup(["ct0=" + value]) == Found(Trim(value, ' '))
  {
    var seg := "ct0=" + value;
    assert seg[3] == '=' && '=' !in seg[..3];
    assert IndexOf(seg, '=') == 3;
    assert SplitOnce(seg, '=')[0] == "ct0";
    assert Trim("ct0", ' ') == "ct0" by {
      assert TrimLeft("ct0", ' ') == "ct0";
      assert TrimRight("ct0", ' ') == "ct0";
    }
    assert seg[4..] == value;
  }
}
