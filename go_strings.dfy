/**
 * The three operations of Go's `strings` package that the cookie parser is
 * built from, restricted to one-character separators and cut sets:
 * `strings.Split(s, ";")`, `strings.SplitN(s, "=", 2)` and `strings.Trim(s, " ")`.
 */
module GoStrings {

  /** Position of the first occurrence of `c` in `s`. */
  function IndexOf(s: string, c: char): (i: nat)
    requires c in s
    ensures i < |s| && s[i] == c
    ensures c !in s[..i]
  {
    if s[0] == c then 0
    else
      var j := IndexOf(s[1..], c);
      assert s[..j + 1] == [s[0]] + s[1..][..j];
      1 + j
  }

  /** `strings.Join(parts, string(sep))`. */
  function Join(parts: seq<string>, sep: char): string
  {
    if parts == [] then ""
    else if |parts| == 1 then parts[0]
    else parts[0] + [sep] + Join(parts[1..], sep)
  }

  /**
   * `strings.Split(s, string(sep))`: the maximal pieces of `s` between
   * separators. There is always at least one piece (the empty string splits
   * into `[""]`) and no piece holds the separator.
   */
  function Split(s: string, sep: char): (parts: seq<string>)
    ensures |parts| >= 1
    ensures forall i :: 0 <= i < |parts| ==> sep !in parts[i]
    decreases |s|
  {
    if sep !in s then [s]
    else
      var i := IndexOf(s, sep);
      [s[..i]] + Split(s[i + 1..], sep)
  }

  /** Joining a piece in front of a non-empty list puts one separator between them. */
  lemma JoinCons(p: string, rest: seq<string>, sep: char)
    requires rest != []
    ensures Join([p] + rest, sep) == p + [sep] + Join(rest, sep)
  {
    assert ([p] + rest)[0] == p && ([p] + rest)[1..] == rest;
  }

  /** Joining the pieces with the separator gives `s` back. */
  lemma {:induction false} JoinSplit(s: string, sep: char)
    ensures Join(Split(s, sep), sep) == s
    decreases |s|
  {
    if sep in s {
      var i := IndexOf(s, sep);
      var rest := Split(s[i + 1..], sep);
      JoinSplit(s[i + 1..], sep);
      JoinCons(s[..i], rest, sep);
      assert s == s[..i] + [sep] + s[i + 1..];
    }
  }

  /** Splitting a join of separator-free pieces gives the pieces back. */
  lemma {:induction false} SplitJoin(parts: seq<string>, sep: char)
    requires |parts| >= 1
    requires forall i :: 0 <= i < |parts| ==> sep !in parts[i]
    ensures Split(Join(parts, sep), sep) == parts
  {
    if |parts| > 1 {
      var s := Join(parts, sep);
      assert s == parts[0] + [sep] + Join(parts[1..], sep);
      assert s[|parts[0]|] == sep;
      var i := IndexOf(s, sep);
      assert s[..|parts[0]|] == parts[0];
      assert i == |parts[0]| by {
        assert sep !in s[..|parts[0]|];
        assert sep in s[..|parts[0]| + 1];
      }
      assert s[i + 1..] == Join(parts[1..], sep);
      SplitJoin(parts[1..], sep);
    }
  }

  /**
   * `strings.SplitN(s, string(sep), 2)`: `s` cut at its first separator, or
   * `[s]` when it has none. The part before the cut holds no separator; the
   * part after it may.
   */
  function SplitOnce(s: string, sep: char): (parts: seq<string>)
    ensures 1 <= |parts| <= 2
    ensures |parts| == 2 <==> sep in s
    ensures sep !in parts[0]
  {
    if sep in s then
      var i := IndexOf(s, sep);
      [s[..i], s[i + 1..]]
    else [s]
  }

  /** The two parts, with the separator between them, make up `s`. */
  lemma JoinSplitOnce(s: string, sep: char)
    ensures Join(SplitOnce(s, sep), sep) == s
  {
    if sep in s {
      var i := IndexOf(s, sep);
      assert s == s[..i] + [sep] + s[i + 1..];
    }
  }

  /** How many copies of `c` `s` starts with. */
  function Leading(s: string, c: char): (n: nat)
    ensures n <= |s|
  {
    if s != [] && s[0] == c then 1 + Leading(s[1..], c) else 0
  }

  /** How many copies of `c` `s` ends with. */
  function Trailing(s: string, c: char): (n: nat)
    ensures n <= |s|
  {
    if s != [] && s[|s| - 1] == c then 1 + Trailing(s[..|s| - 1], c) else 0
  }

  /** `Leading` counts a maximal run: all of it is `c`, and what follows it is not. */
  lemma {:induction false} LeadingRun(s: string, c: char)
    ensures forall k :: 0 <= k < Leading(s, c) ==> s[k] == c
    ensures Leading(s, c) == |s| || s[Leading(s, c)] != c
  {
    if s != [] && s[0] == c {
      LeadingRun(s[1..], c);
      forall k | 1 <= k < Leading(s, c) ensures s[k] == c {
        assert s[k] == s[1..][k - 1];
      }
    }
  }

  /** `Trailing` counts a maximal run: all of it is `c`, and what precedes it is not. */
  lemma {:induction false} TrailingRun(s: string, c: char)
    ensures forall k :: |s| - Trailing(s, c) <= k < |s| ==> s[k] == c
    ensures Trailing(s, c) == |s| || s[|s| - Trailing(s, c) - 1] != c
  {
    if s != [] && s[|s| - 1] == c {
      TrailingRun(s[..|s| - 1], c);
      forall k | |s| - Trailing(s, c) <= k < |s| - 1 ensures s[k] == c {
        assert s[k] == s[..|s| - 1][k];
      }
    }
  }

  /** `strings.TrimLeft(s, string(c))`: the suffix of `s` after its leading `c`s. */
  function TrimLeft(s: string, c: char): string
  {
    s[Leading(s, c)..]
  }

  /** `strings.TrimRight(s, string(c))`: the prefix of `s` before its trailing `c`s. */
  function TrimRight(s: string, c: char): string
  {
    s[..|s| - Trailing(s, c)]
  }

  /** `strings.Trim(s, string(c))`: `s` without its leading and trailing `c`s. */
  function Trim(s: string, c: char): string
  {
    TrimRight(TrimLeft(s, c), c)
  }

  /**
   * Trim keeps the slice of `s` between its leading and its trailing run of
   * `c`: everything dropped is `c`, and what is kept neither starts nor ends
   * with `c`.
   */
  lemma TrimEnds(s: string, c: char)
    ensures var t := Trim(s, c);
            var lo := Leading(s, c);
            lo + |t| <= |s| && t == s[lo..lo + |t|] &&
            (forall k :: 0 <= k < lo ==> s[k] == c) &&
            (forall k :: lo + |t| <= k < |s| ==> s[k] == c) &&
            (t == [] || (t[0] != c && t[|t| - 1] != c))
  {
    var l := TrimLeft(s, c);
    var lo := Leading(s, c);
    LeadingRun(s, c);
    TrailingRun(l, c);
    forall k | lo + |Trim(s, c)| <= k < |s| ensures s[k] == c {
      assert s[k] == l[k - lo];
    }
  }

  /** Trimming twice is trimming once. */
  lemma TrimIdempotent(s: string, c: char)
    ensures Trim(Trim(s, c), c) == Trim(s, c)
  {
    var t := Trim(s, c);
    TrimEnds(s, c);
    assert Leading(t, c) == 0;
    assert Trailing(t, c) == 0;
  }
}
