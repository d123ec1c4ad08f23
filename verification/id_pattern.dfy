/**
 The search a listing link goes through to yield a game id: the regular
 expression `/\/boardgame\/(\d+)/`, i.e. the leftmost `/boardgame/` that is
 immediately followed by a digit, capturing the longest digit run after it.
 */
module IdPattern {
  import opened Wrappers
  import opened Text

  const Marker: string := "/boardgame/"

  /** The pattern can start matching at position `i` of `s`. */
  predicate MatchesAt(s: string, i: nat)
  {
    i + |Marker| < |s| && s[i..i + |Marker|] == Marker && IsDigit(s[i + |Marker|])
  }

  /** End of the longest run of digits in `s` that starts at `j` (greedy `\d+`). */
  function DigitRunEnd(s: string, j: nat): (k: nat)
    requires j <= |s|
    ensures j <= k <= |s|
    ensures AllDigits(s[j..k])
    ensures k == |s| || !IsDigit(s[k])
    decreases |s| - j
  {
    if j < |s| && IsDigit(s[j]) then DigitRunEnd(s, j + 1) else j
  }

  /** The leftmost position at or after `from` where the pattern matches. */
  function FindFrom(s: string, from: nat): (r: Option<nat>)
    ensures r.Some? ==> from <= r.value && MatchesAt(s, r.value)
    ensures r.Some? ==> forall i: nat :: from <= i < r.value ==> !MatchesAt(s, i)
    ensures r.None? ==> forall i: nat :: from <= i ==> !MatchesAt(s, i)
    decreases |s| - from
  {
    if from + |Marker| >= |s| then None
    else if MatchesAt(s, from) then Some(from)
    else FindFrom(s, from + 1)
  }

  /** `link.match(/\/boardgame\/(\d+)/)[1]`, or `None` where `match` gives `null`. */
  function ExtractId(link: string): (r: Option<string>)
    ensures r.Some? <==> exists i: nat :: MatchesAt(link, i)
    ensures r.Some? ==> |r.value| > 0 && AllDigits(r.value)
  {
    match FindFrom(link, 0)
    case None => None
    case Some(i) =>
      var start := i + |Marker|;
      Some(link[start..DigitRunEnd(link, start)])
  }

  /**
   Reference reading of the pattern: `id` is what a match starting at `i`
   captures when `i` is the leftmost match and the digit run is maximal.
   */
  ghost predicate IsCaptureAt(link: string, i: nat, id: string)
  {
    && MatchesAt(link, i)
    && (forall j: nat :: j < i ==> !MatchesAt(link, j))
    && i + |Marker| + |id| <= |link|
    && link[i + |Marker|..i + |Marker| + |id|] == id
    && AllDigits(id)
    && (i + |Marker| + |id| == |link| || !IsDigit(link[i + |Marker| + |id|]))
  }

  ghost predicate IsCapture(link: string, id: string)
  {
    exists i: nat :: IsCaptureAt(link, i, id)
  }

  /** A maximal digit run starting at `j` ends where `DigitRunEnd` says. */
  lemma {:induction false} MaximalRunIsDigitRun(s: string, j: nat, m: nat)
    requires j + m <= |s|
    requires AllDigits(s[j..j + m])
    requires j + m == |s| || !IsDigit(s[j + m])
    ensures DigitRunEnd(s, j) == j + m
    decreases m
  {
    if m > 0 {
      assert s[j..j + m][0] == s[j];
      assert s[j + 1..j + 1 + (m - 1)] == s[j..j + m][1..];
      MaximalRunIsDigitRun(s, j + 1, m - 1);
    }
  }

  /** `ExtractId` returns exactly the capture of the reference reading, in both directions. */
  lemma ExtractIdIsCapture(link: string, id: string)
    ensures ExtractId(link) == Some(id) <==> IsCapture(link, id)
  {
    if ExtractId(link) == Some(id) {
      var i := FindFrom(link, 0).value;
      assert IsCaptureAt(link, i, id);
    }
    if IsCapture(link, id) {
      var i: nat :| IsCaptureAt(link, i, id);
      var f := FindFrom(link, 0);
      assert f == Some(i);
      MaximalRunIsDigitRun(link, i + |Marker|, |id|);
    }
  }

  /** No `/boardgame/<digit>` anywhere: extraction fails rather than defaulting. */
  lemma NoMatchFails(link: string)
    requires forall i: nat :: !MatchesAt(link, i)
    ensures ExtractId(link).None?
  {
  }

  /** A link that begins `/boardgame/<digits>`, the digits not followed by another digit, yields those digits. */
  lemma LeadingId(id: string, tail: string)
    requires |id| > 0 && AllDigits(id)
    requires |tail| == 0 || !IsDigit(tail[0])
    ensures ExtractId(Marker + id + tail) == Some(id)
  {
    var link := Marker + id + tail;
    assert link[..|Marker|] == Marker;
    assert link[|Marker|..|Marker| + |id|] == id;
    assert |tail| > 0 ==> link[|Marker| + |id|] == tail[0];
    assert IsCaptureAt(link, 0, id);
    ExtractIdIsCapture(link, id);
  }

  /** Prepending `p` moves every match `|p|` positions to the right. */
  lemma ShiftedMatch(p: string, s: string, i: nat)
    ensures MatchesAt(p + s, i + |p|) <==> MatchesAt(s, i)
  {
    var w := p + s;
    var n := |p|;
    if i + |Marker| < |s| {
      assert w[i + n..i + n + |Marker|] == s[i..i + |Marker|];
      assert w[i + n + |Marker|] == s[i + |Marker|];
    }
  }

  /** Behind a prefix where the pattern cannot start, matches are exactly the shifted matches. */
  lemma ShiftedMatches(p: string, s: string, j: nat)
    requires forall k: nat :: k < |p| ==> !MatchesAt(p + s, k)
    ensures MatchesAt(p + s, j) <==> j >= |p| && MatchesAt(s, j - |p|)
  {
    if j >= |p| {
      ShiftedMatch(p, s, j - |p|);
    }
  }

  lemma SliceShift(p: string, s: string, a: nat, b: nat)
    requires a <= b <= |s|
    ensures (p + s)[a + |p|..b + |p|] == s[a..b]
  {
    assert forall k :: 0 <= k < b - a ==> (p + s)[a + |p|..b + |p|][k] == s[a..b][k];
  }

  lemma ShiftedCapture(p: string, s: string, i: nat, id: string)
    requires forall k: nat :: k < |p| ==> !MatchesAt(p + s, k)
    requires IsCaptureAt(s, i, id)
    ensures IsCaptureAt(p + s, i + |p|, id)
  {
    var w := p + s;
    var n := |p|;
    ShiftedMatches(p, s, i + n);
    forall j: nat | j < i + n
      ensures !MatchesAt(w, j)
    {
      ShiftedMatches(p, s, j);
    }
    SliceShift(p, s, i + |Marker|, i + |Marker| + |id|);
    assert i + n + |Marker| + |id| < |w| ==> w[i + n + |Marker| + |id|] == s[i + |Marker| + |id|];
  }

  /** A prefix in which the pattern cannot start does not change the id a link yields. */
  lemma PrefixKeepsId(p: string, s: string)
    requires forall j: nat :: j < |p| ==> !MatchesAt(p + s, j)
    ensures ExtractId(p + s) == ExtractId(s)
  {
    if ExtractId(s).Some? {
      var id := ExtractId(s).value;
      ExtractIdIsCapture(s, id);
      var i: nat :| IsCaptureAt(s, i, id);
      ShiftedCapture(p, s, i, id);
      ExtractIdIsCapture(p + s, id);
    } else {
      forall j: nat
        ensures !MatchesAt(p + s, j)
      {
        ShiftedMatches(p, s, j);
      }
    }
  }
}
