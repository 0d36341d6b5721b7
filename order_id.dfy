/** Extraction of the order identifier from the order link: the component runs
    the regular expression `order\/(\d+)` over the link and keeps capture group 1.
    Under ECMAScript regular-expression semantics (without the `u` flag) the search
    tries each start position from the left, `\d` is an ASCII digit, and the greedy
    `\d+` takes the longest run of digits, since nothing follows it in the pattern. */
module OrderIdExtraction {
  import opened Wrappers

  /** The literal part of the pattern. */
  const Marker: string := "order/"

  predicate IsDigit(c: char) {
    '0' <= c <= '9'
  }

  predicate AllDigits(s: string) {
    forall i :: 0 <= i < |s| ==> IsDigit(s[i])
  }

  /** The pattern can match starting at `i`: the marker sits there and is
      immediately followed by at least one digit. */
  predicate MatchesAt(s: string, i: int) {
    0 <= i && i + |Marker| < |s| && s[i..i + |Marker|] == Marker && IsDigit(s[i + |Marker|])
  }

  /** `i` is the leftmost position at which the pattern matches. */
  ghost predicate IsLeftmostMatch(s: string, i: int) {
    MatchesAt(s, i) && forall k :: 0 <= k < i ==> !MatchesAt(s, k)
  }

  /** `d` is the maximal run of digits that starts at position `j` of `s`. */
  ghost predicate IsMaximalRunAt(s: string, j: int, d: string) {
    0 <= j && j + |d| <= |s| && s[j..j + |d|] == d && AllDigits(d)
    && (j + |d| == |s| || !IsDigit(s[j + |d|]))
  }

  /** The declarative meaning of the match: `d` is capture group 1 of the
      leftmost match of the pattern in `link`. */
  ghost predicate IsCapture(link: string, d: string) {
    exists i :: IsLeftmostMatch(link, i) && IsMaximalRunAt(link, i + |Marker|, d)
  }

  /** What the greedy `\d+` consumes: the longest prefix of `s` made of digits. */
  function DigitRun(s: string): (r: string)
    ensures |r| <= |s| && r == s[..|r|]
    ensures AllDigits(r)
    ensures |r| == |s| || !IsDigit(s[|r|])
  {
    if s != [] && IsDigit(s[0]) then [s[0]] + DigitRun(s[1..]) else []
  }

  /** The unanchored search: the leftmost position at or after `from` where the
      pattern matches, if any. */
  function FindFrom(s: string, from: nat): (r: Option<nat>)
    ensures r.Some? ==> from <= r.value && MatchesAt(s, r.value)
    ensures r.Some? ==> forall k :: from <= k < r.value ==> !MatchesAt(s, k)
    ensures r.None? ==> forall k :: from <= k ==> !MatchesAt(s, k)
    decreases |s| - from
  {
    if from + |Marker| >= |s| then None
    else if MatchesAt(s, from) then Some(from)
    else FindFrom(s, from + 1)
  }

  /** `link.match(/order\/(\d+)/)`: `None` for a null result, otherwise group 1. */
  function Extract(link: string): (r: Option<string>)
    ensures r.Some? <==> exists i :: MatchesAt(link, i)
    ensures r.Some? ==> r.value != [] && AllDigits(r.value)
  {
    match FindFrom(link, 0)
    case None => None
    case Some(i) =>
      var d := DigitRun(link[i + |Marker|..]);
      assert d != [] by { assert IsDigit(link[i + |Marker|..][0]); }
      Some(d)
  }

  /** The order identifier the component stores for `link`: the digits found, or
      the empty string when the pattern does not match. */
  function OrderIdFor(link: string): (r: string)
    ensures r == [] <==> Extract(link).None?
    ensures Extract(link).Some? ==> r == Extract(link).value
    ensures AllDigits(r)
  {
    match Extract(link)
    case Some(d) => d
    case None => ""
  }

  lemma LeftmostIsUnique(s: string, i: int, j: int)
    requires IsLeftmostMatch(s, i) && IsLeftmostMatch(s, j)
    ensures i == j
  {
  }

  /** Any maximal digit run at `j` is what `DigitRun` computes there. */
  lemma MaximalRunIsDigitRun(s: string, j: int, d: string)
    requires IsMaximalRunAt(s, j, d)
    ensures d == DigitRun(s[j..])
  {
  }

  /** The scanner is exactly the regular expression: it returns `Some(d)` if and
      only if `d` is the maximal digit run after the leftmost `order/` that is
      immediately followed by a digit. */
  lemma ExtractIsCapture(link: string, d: string)
    ensures Extract(link) == Some(d) <==> IsCapture(link, d)
  {
    var found := FindFrom(link, 0);
    if found.Some? {
      var i := found.value;
      var run := DigitRun(link[i + |Marker|..]);
      assert IsLeftmostMatch(link, i);
      assert IsMaximalRunAt(link, i + |Marker|, run);
      if IsCapture(link, d) {
        var i' :| IsLeftmostMatch(link, i') && IsMaximalRunAt(link, i' + |Marker|, d);
        LeftmostIsUnique(link, i, i');
        MaximalRunIsDigitRun(link, i + |Marker|, d);
      }
    } else {
      if IsCapture(link, d) {
        assert false;
      }
    }
  }

  /** No position of `p` starts a match. */
  ghost predicate NoMatchIn(p: string) {
    forall k :: !MatchesAt(p, k)
  }

  /** An occurrence of the marker cannot straddle the end of a prefix and the
      start of another marker, because no proper suffix of `order/` begins with `o`. */
  lemma {:induction false} NoMatchBefore(p: string, rest: string, k: int)
    requires NoMatchIn(p)
    requires |rest| > |Marker| && rest[..|Marker|] == Marker
    requires 0 <= k < |p|
    ensures !MatchesAt(p + rest, k)
  {
    var s := p + rest;
    if k + |Marker| < |p| {
      assert !MatchesAt(p, k);
      assert s[k..k + |Marker|] == p[k..k + |Marker|];
      assert s[k + |Marker|] == p[k + |Marker|];
    } else {
      assert s[|p|] == 'o';
    }
  }

  /** First match wins: when the prefix `p` holds no match, the digits right
      after the next `order/` are the result, whatever `q` holds later
      (including further `order/<digits>` occurrences). */
  lemma {:induction false} FirstOccurrenceWins(p: string, ds: string, q: string)
    requires NoMatchIn(p)
    requires ds != [] && AllDigits(ds)
    requires q == [] || !IsDigit(q[0])
    ensures Extract(p + Marker + ds + q) == Some(ds)
  {
    var s := p + Marker + ds + q;
    var rest := Marker + ds + q;
    assert s == p + rest;
    forall k | 0 <= k < |p|
      ensures !MatchesAt(s, k)
    {
      NoMatchBefore(p, rest, k);
    }
    var j := |p| + |Marker|;
    assert s[|p|..j] == Marker;
    assert s[j..j + |ds|] == ds;
    assert s[j] == ds[0];
    assert MatchesAt(s, |p|);
    assert IsLeftmostMatch(s, |p|);
    assert j + |ds| == |s| || s[j + |ds|] == q[0];
    assert IsMaximalRunAt(s, j, ds);
    ExtractIsCapture(s, ds);
  }

  /** An `order/` that is not followed by a digit is skipped. */
  lemma SkipsMarkerWithoutDigits()
    ensures Extract("order/abc order/12") == Some("12")
  {
    var p := "order/abc ";
    forall k ensures !MatchesAt(p, k) {
      if 0 <= k && k + |Marker| < |p| {
        assert p[k + |Marker|] in "abc ";
      }
    }
    assert p + Marker + "12" + "" == "order/abc order/12";
    FirstOccurrenceWins(p, "12", "");
  }

  /** Of two occurrences, the first wins. */
  lemma FirstOfTwoWins()
    ensures Extract("order/12/x/order/34") == Some("12")
  {
    assert "" + Marker + "12" + "/x/order/34" == "order/12/x/order/34";
    FirstOccurrenceWins("", "12", "/x/order/34");
  }

  /** The identifier is found anywhere in a URL. */
  lemma FindsIdInUrl()
    ensures Extract("https://x/order/77") == Some("77")
  {
    var p := "https://x/";
    forall k ensures !MatchesAt(p, k) {
      if 0 <= k && k + |Marker| < |p| {
        assert p[k] != 'o';
      }
    }
    assert p + Marker + "77" + "" == "https://x/order/77";
    FirstOccurrenceWins(p, "77", "");
  }

  /** A link without the pattern has no match. */
  lemma NoMatchWithoutMarker()
    ensures Extract("no-match-here") == None
  {
  }
}
