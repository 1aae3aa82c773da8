/**
 * The link extraction of the message gate: every match of the global regular
 * expression `/https?:\/\/[^\s]+/g` in a message, in the order `matchAll`
 * yields them. At a position the expression matches when the text there
 * starts with `https://` or `http://` and at least one non-whitespace
 * character follows; the match then runs greedily up to the next whitespace
 * or the end, and the search resumes where the match ended.
 */
module UrlScan {
  import opened Js

  /** A match: the text `s[start..end]`. */
  datatype Span = Span(start: nat, end: nat)

  /** The length of the scheme (`https://` or `http://`) written at `s[i]`, or 0. */
  function SchemeLength(s: string, i: nat): (n: nat)
    requires i <= |s|
    ensures n == 0 || n == 7 || n == 8
    ensures n > 0 ==> i + n <= |s| && s[i] == 'h'
  {
    if StartsWith(s[i..], "https://") then 8
    else if StartsWith(s[i..], "http://") then 7
    else 0
  }

  /** The expression matches at `i`: a scheme and at least one non-whitespace character. */
  predicate MatchesAt(s: string, i: nat)
    requires i <= |s|
  {
    var n := SchemeLength(s, i);
    n > 0 && i + n < |s| && !IsWhitespace(s[i + n])
  }

  /** The end of the run of non-whitespace characters from `i` on. */
  function RunEnd(s: string, i: nat): (e: nat)
    requires i <= |s|
    ensures i <= e <= |s|
    ensures forall k :: i <= k < e ==> !IsWhitespace(s[k])
    ensures e == |s| || IsWhitespace(s[e])
    decreases |s| - i
  {
    if i == |s| || IsWhitespace(s[i]) then i else RunEnd(s, i + 1)
  }

  /**
   * The matches found by scanning from `i` on: non-empty, inside `s[i..]`,
   * and each ends no later than the next one starts.
   */
  function MatchesFrom(s: string, i: nat): (r: seq<Span>)
    requires i <= |s|
    ensures forall k :: 0 <= k < |r| ==> i <= r[k].start < r[k].end <= |s|
    ensures forall k :: 0 <= k < |r| - 1 ==> r[k].end <= r[k + 1].start
    decreases |s| - i
  {
    if i == |s| then []
    else if MatchesAt(s, i) then
      var e := RunEnd(s, i);
      assert e > i by { assert s[i] == 'h'; }
      [Span(i, e)] + MatchesFrom(s, e)
    else MatchesFrom(s, i + 1)
  }

  function Matches(s: string): seq<Span> {
    MatchesFrom(s, 0)
  }

  /** `[...s.matchAll(/https?:\/\/[^\s]+/g)].map(m => m[0])`. */
  function Urls(s: string): (r: seq<string>)
    ensures |r| == |Matches(s)|
    ensures forall k :: 0 <= k < |r| ==> r[k] == s[Matches(s)[k].start..Matches(s)[k].end]
  {
    var m := Matches(s);
    seq(|m|, k requires 0 <= k < |m| => s[m[k].start..m[k].end])
  }

  /**
   * Each match starts where the expression matches and is the whole run of
   * non-whitespace from there: it ends at whitespace or at the end of the text.
   */
  lemma {:induction false} MatchesSound(s: string, i: nat, k: nat)
    requires i <= |s| && k < |MatchesFrom(s, i)|
    ensures var m := MatchesFrom(s, i)[k];
      MatchesAt(s, m.start) && m.end == RunEnd(s, m.start)
    decreases |s| - i
  {
    var r := MatchesFrom(s, i);
    if MatchesAt(s, i) {
      var e := RunEnd(s, i);
      if k > 0 {
        MatchesSound(s, e, k - 1);
        assert r[k] == MatchesFrom(s, e)[k - 1];
      }
    } else {
      MatchesSound(s, i + 1, k);
    }
  }

  /** `p` lies inside one of the matches in `r`. */
  ghost predicate Covered(r: seq<Span>, p: nat) {
    exists k :: 0 <= k < |r| && r[k].start <= p < r[k].end
  }

  /**
   * No match is missed: every position where the expression matches lies
   * inside one of the extracted matches (it is that match's start, or it is
   * swallowed by the greedy run of an earlier one).
   */
  lemma {:induction false} MatchesComplete(s: string, i: nat, p: nat)
    requires i <= p < |s| && MatchesAt(s, p)
    ensures Covered(MatchesFrom(s, i), p)
    decreases |s| - i
  {
    var r := MatchesFrom(s, i);
    if MatchesAt(s, i) {
      var e := RunEnd(s, i);
      assert r[0] == Span(i, e);
      if p >= e {
        MatchesComplete(s, e, p);
        var rest := MatchesFrom(s, e);
        var k :| 0 <= k < |rest| && rest[k].start <= p < rest[k].end;
        assert r[k + 1] == rest[k];
      }
    } else {
      assert p != i;
      MatchesComplete(s, i + 1, p);
    }
  }

  /**
   * What the gate sees of each link: it begins with `http://` or `https://`
   * followed by at least one more character, holds no whitespace, and is the
   * text of the message at its match.
   */
  lemma UrlShape(s: string, k: nat)
    requires k < |Urls(s)|
    ensures var u := Urls(s)[k];
      (StartsWith(u, "http://") || StartsWith(u, "https://")) &&
      |u| > SchemeLength(s, Matches(s)[k].start) && (StartsWith(u, "https://") ==> |u| > 8) &&
      NoWhitespace(u) && u == s[Matches(s)[k].start..Matches(s)[k].end]
  {
    var m := Matches(s);
    MatchesSound(s, 0, k);
    SpanShape(s, m[k].start, m[k].end);
  }

  /** The text of a match starting at `b`. */
  lemma SpanShape(s: string, b: nat, e: nat)
    requires b <= |s| && MatchesAt(s, b) && e == RunEnd(s, b)
    ensures var u := s[b..e];
      (StartsWith(u, "http://") || StartsWith(u, "https://")) &&
      |u| > SchemeLength(s, b) && (StartsWith(u, "https://") ==> |u| > 8) && NoWhitespace(u)
  {
    var n := SchemeLength(s, b);
    RunPastScheme(s, b);
    var u := s[b..e];
    assert u[..n] == s[b..][..n];
    if StartsWith(u, "https://") {
      assert s[b..][..8] == u[..8];
    }
    forall q | 0 <= q < |u| ensures !IsWhitespace(u[q]) {
      assert u[q] == s[b + q];
    }
  }

  /** The run of non-whitespace from a match's start goes past its scheme. */
  lemma RunPastScheme(s: string, b: nat)
    requires b <= |s| && MatchesAt(s, b)
    ensures RunEnd(s, b) > b + SchemeLength(s, b)
  {
    var n := SchemeLength(s, b);
    var p := if n == 8 then "https://" else "http://";
    assert s[b..b + n] == p;
    forall q | b <= q < b + n ensures !IsWhitespace(s[q]) {
      assert s[q] == p[q - b];
      SchemeCharsNotWhitespace(p, q - b);
    }
    RunEndPast(s, b, b + n);
  }

  lemma SchemeCharsNotWhitespace(p: string, q: nat)
    requires p == "https://" || p == "http://"
    requires q < |p|
    ensures !IsWhitespace(p[q])
  {
  }

  /** A run of non-whitespace through `j` ends after `j`. */
  lemma {:induction false} RunEndPast(s: string, i: nat, j: nat)
    requires i <= j < |s|
    requires forall q :: i <= q <= j ==> !IsWhitespace(s[q])
    ensures RunEnd(s, i) > j
    decreases j - i
  {
    if i < j {
      RunEndPast(s, i + 1, j);
    }
  }

  /** Every position of the text belongs to at most one match. */
  lemma MatchesDisjoint(s: string, k: nat, l: nat)
    requires k < l < |Matches(s)|
    ensures Matches(s)[k].end <= Matches(s)[l].start
  {
    var m := Matches(s);
    var j := k;
    while j < l
      invariant k <= j <= l
      invariant m[k].end <= m[j].start || j == k
      decreases l - j
    {
      assert m[j].end <= m[j + 1].start;
      j := j + 1;
    }
  }
}
