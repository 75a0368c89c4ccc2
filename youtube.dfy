/**
 * `extractYouTubeVideoId` in app.js: `url.match(/(?:youtube\.com\/watch\?v=|youtu\.be\/)([^&?\/]+)/)`
 * and the first capture group. No regex engine is modelled; the one pattern
 * is matched by hand with JavaScript's semantics for it: the match starts at
 * the leftmost position where either marker is followed by at least one
 * character outside `& ? /`, the greedy group then takes the longest such run,
 * and the comparison is case-sensitive.
 */
module YouTube {
  import opened Wrappers

  /** The first alternative, `youtube\.com\/watch\?v=`. */
  const WatchMarker: string := "youtube.com/watch?v="
  /** The second alternative, `youtu\.be\/`. */
  const ShortMarker: string := "youtu.be/"

  /** A character of the class `[^&?\/]`. */
  predicate IsIdChar(c: char) {
    c != '&' && c != '?' && c != '/'
  }

  /** A possible value of the capture group `([^&?\/]+)`. */
  predicate IsId(s: string) {
    |s| > 0 && forall i :: 0 <= i < |s| ==> IsIdChar(s[i])
  }

  /** `m` occurs in `s` at position `p`. */
  predicate HasAt(s: string, p: nat, m: string) {
    p + |m| <= |s| && s[p..p + |m|] == m
  }

  /** Where the marker found at `p` ends. */
  function MarkerEnd(url: string, p: nat): nat
    requires HasAt(url, p, WatchMarker) || HasAt(url, p, ShortMarker)
  {
    if HasAt(url, p, WatchMarker) then p + |WatchMarker| else p + |ShortMarker|
  }

  /** The whole pattern matches at `p`: a marker, then at least one id character. */
  predicate MatchesAt(url: string, p: nat) {
    (HasAt(url, p, WatchMarker) && p + |WatchMarker| < |url| && IsIdChar(url[p + |WatchMarker|])) ||
    (HasAt(url, p, ShortMarker) && p + |ShortMarker| < |url| && IsIdChar(url[p + |ShortMarker|]))
  }

  /** `id` is the maximal run of id characters in `url` starting at `k`: it is
      there, and it stops at the end of `url` or at an `&`, `?` or `/`. */
  predicate IdFollows(url: string, k: nat, id: string) {
    IsId(id) && k + |id| <= |url| && url[k..k + |id|] == id &&
    (k + |id| == |url| || !IsIdChar(url[k + |id|]))
  }

  /** The two alternatives differ at their sixth character, so at most one of
      them occurs at any position. */
  lemma MarkersExclusive(url: string, p: nat)
    ensures !(HasAt(url, p, WatchMarker) && HasAt(url, p, ShortMarker))
  {
    if HasAt(url, p, WatchMarker) {
      assert url[p + 5] == url[p..p + |WatchMarker|][5];
    }
  }

  /** The greedy run of `[^&?\/]` at the start of `s` (possibly empty). */
  function IdRun(s: string): (r: string)
    ensures r <= s
    ensures forall i :: 0 <= i < |r| ==> IsIdChar(r[i])
    ensures |r| == |s| || !IsIdChar(s[|r|])
  {
    if s == [] || !IsIdChar(s[0]) then []
    else
      var tail := IdRun(s[1..]);
      assert forall i :: 1 <= i <= |tail| ==> s[i] == s[1..][i - 1];
      [s[0]] + tail
  }

  /** The run starting with `id` stops where `id` does when the next
      character is not an id character. */
  lemma {:induction false} IdRunOf(id: string, rest: string)
    requires forall i :: 0 <= i < |id| ==> IsIdChar(id[i])
    requires rest == [] || !IsIdChar(rest[0])
    ensures IdRun(id + rest) == id
  {
    if id == [] {
      assert id + rest == rest;
    } else {
      assert (id + rest)[1..] == id[1..] + rest;
      IdRunOf(id[1..], rest);
    }
  }

  /** The regex tried at the single position `p`, alternatives in order. */
  function MatchAt(url: string, p: nat): (r: Option<string>)
    requires p <= |url|
    ensures r.Some? <==> MatchesAt(url, p)
    ensures r.Some? ==> IdFollows(url, MarkerEnd(url, p), r.value)
  {
    MarkersExclusive(url, p);
    if HasAt(url, p, WatchMarker) && IdRun(url[p + |WatchMarker|..]) != [] then
      RunFollows(url, p + |WatchMarker|);
      Some(IdRun(url[p + |WatchMarker|..]))
    else if HasAt(url, p, ShortMarker) && IdRun(url[p + |ShortMarker|..]) != [] then
      RunFollows(url, p + |ShortMarker|);
      Some(IdRun(url[p + |ShortMarker|..]))
    else
      None
  }

  lemma RunFollows(url: string, k: nat)
    requires k <= |url| && IdRun(url[k..]) != []
    ensures IdFollows(url, k, IdRun(url[k..]))
  {
  }

  /** `k` is the first position at or after `p` where the pattern matches. */
  predicate LeftmostFrom(url: string, p: nat, k: nat) {
    p <= k <= |url| && MatchesAt(url, k) && forall q :: p <= q < k ==> !MatchesAt(url, q)
  }

  /** The leftmost match at or after `p`, as `String.prototype.match` scans. */
  function SearchFrom(url: string, p: nat): (r: Option<string>)
    requires p <= |url|
    decreases |url| - p
    ensures r.None? <==> forall q :: p <= q <= |url| ==> !MatchesAt(url, q)
    ensures r.Some? ==>
      exists k :: LeftmostFrom(url, p, k) && IdFollows(url, MarkerEnd(url, k), r.value)
  {
    var here := MatchAt(url, p);
    if here.Some? then
      assert LeftmostFrom(url, p, p);
      here
    else if p == |url| then
      None
    else
      var r := SearchFrom(url, p + 1);
      if r.Some? then
        var k :| LeftmostFrom(url, p + 1, k) && IdFollows(url, MarkerEnd(url, k), r.value);
        assert LeftmostFrom(url, p, k);
        r
      else
        r
  }

  /** `extractYouTubeVideoId(url)`: `None` exactly when the pattern matches
      nowhere; otherwise the id right after the leftmost match's marker,
      running to the next `&`, `?`, `/` or the end of `url`. */
  function ExtractYouTubeVideoId(url: string): (r: Option<string>)
    ensures r.None? <==> forall p :: 0 <= p <= |url| ==> !MatchesAt(url, p)
    ensures r.Some? ==>
      IsId(r.value) &&
      exists p :: LeftmostFrom(url, 0, p) && IdFollows(url, MarkerEnd(url, p), r.value)
  {
    SearchFrom(url, 0)
  }

  /** The run that `IdFollows` describes is the greedy run, so it is unique. */
  lemma IdFollowsIsRun(url: string, k: nat, id: string)
    requires IdFollows(url, k, id)
    ensures id == IdRun(url[k..])
  {
    assert url[k..] == id + url[k + |id|..];
    IdRunOf(id, url[k + |id|..]);
  }

  /** The converse of the contract of `ExtractYouTubeVideoId`: a leftmost
      match at `p` followed by the run `id` is exactly what it returns. */
  lemma ExtractYouTubeVideoIdAt(url: string, p: nat, id: string)
    requires LeftmostFrom(url, 0, p)
    requires IdFollows(url, MarkerEnd(url, p), id)
    ensures ExtractYouTubeVideoId(url) == Some(id)
  {
    var r := ExtractYouTubeVideoId(url);
    assert r.Some?;
    var k :| LeftmostFrom(url, 0, k) && IdFollows(url, MarkerEnd(url, k), r.value);
    assert k == p;
    IdFollowsIsRun(url, MarkerEnd(url, p), r.value);
    IdFollowsIsRun(url, MarkerEnd(url, p), id);
  }

  /** Both markers start with `y`, so no match starts anywhere else. */
  lemma NoMatchWithoutY(url: string, q: nat)
    requires q < |url| && url[q] != 'y'
    ensures !MatchesAt(url, q)
  {
  }

  /** No match starts in a prefix without `y`. */
  lemma NoMatchBefore(url: string, p: nat)
    requires p <= |url| && forall i :: 0 <= i < p ==> url[i] != 'y'
    ensures forall q :: 0 <= q < p ==> !MatchesAt(url, q)
  {
    forall q | 0 <= q < p ensures !MatchesAt(url, q) {
      NoMatchWithoutY(url, q);
    }
  }

  /** A string without `y` holds no match. */
  lemma NoMatchInString(url: string)
    requires forall i :: 0 <= i < |url| ==> url[i] != 'y'
    ensures ExtractYouTubeVideoId(url) == None
  {
    forall q | 0 <= q <= |url| ensures !MatchesAt(url, q) {
      if q < |url| { NoMatchWithoutY(url, q); }
    }
  }

  /** A url made of a prefix without `y`, one of the two markers, an id and
      anything that does not continue the id yields exactly that id. */
  lemma ExtractAfterMarker(pre: string, m: string, id: string, rest: string)
    requires m == WatchMarker || m == ShortMarker
    requires forall i :: 0 <= i < |pre| ==> pre[i] != 'y'
    requires IsId(id)
    requires rest == [] || !IsIdChar(rest[0])
    ensures ExtractYouTubeVideoId(pre + m + id + rest) == Some(id)
  {
    var url := pre + m + id + rest;
    var p := |pre|;
    assert url[p..p + |m|] == m;
    assert HasAt(url, p, m);
    MarkersExclusive(url, p);
    assert MarkerEnd(url, p) == p + |m|;
    assert url[p + |m|..p + |m| + |id|] == id;
    if rest != [] {
      assert url[p + |m| + |id|] == rest[0];
    }
    assert IdFollows(url, p + |m|, id);
    assert url[p + |m|] == id[0];
    assert MatchesAt(url, p);
    assert forall i :: 0 <= i < p ==> url[i] == pre[i];
    NoMatchBefore(url, p);
    ExtractYouTubeVideoIdAt(url, p, id);
  }

  /** `https://www.youtube.com/watch?v=ABC123&t=5` gives `ABC123`. */
  lemma ExtractWatchExample()
    ensures ExtractYouTubeVideoId("https://www." + WatchMarker + "ABC123" + "&t=5") == Some("ABC123")
  {
    ExtractAfterMarker("https://www.", WatchMarker, "ABC123", "&t=5");
  }

  /** `https://youtu.be/XYZ789` gives `XYZ789`. */
  lemma ExtractShortExample()
    ensures ExtractYouTubeVideoId("https://" + ShortMarker + "XYZ789") == Some("XYZ789")
  {
    ExtractAfterMarker("https://", ShortMarker, "XYZ789", "");
    assert "https://" + ShortMarker + "XYZ789" + "" == "https://" + ShortMarker + "XYZ789";
  }

  lemma ExtractOtherHostExample()
    ensures ExtractYouTubeVideoId("https://vimeo.com/12345") == None
  {
    var url := "https://vimeo.com/12345";
    assert forall i | 0 <= i < |url| :: url[i] != 'y';
    NoMatchInString(url);
  }

  /** Matching is case-sensitive. */
  lemma CaseSensitiveExample()
    ensures ExtractYouTubeVideoId("https://YOUTU.BE/XYZ789") == None
  {
    var url := "https://YOUTU.BE/XYZ789";
    assert forall i | 0 <= i < |url| :: url[i] != 'y';
    NoMatchInString(url);
  }

  /** A marker followed directly by `&` is no match: the group needs at least
      one character. */
  lemma EmptyIdExample()
    ensures ExtractYouTubeVideoId("https://www." + WatchMarker + "&t=5") == None
  {
    NoIdAfterMarker("https://www.", WatchMarker, "&t=5");
  }

  /** A marker that is not followed by an id character is no match. */
  lemma NoIdAfterMarker(pre: string, m: string, rest: string)
    requires m == WatchMarker || m == ShortMarker
    requires forall i :: 0 <= i < |pre| ==> pre[i] != 'y'
    requires forall i :: 0 <= i < |rest| ==> rest[i] != 'y'
    requires rest == [] || !IsIdChar(rest[0])
    ensures ExtractYouTubeVideoId(pre + m + rest) == None
  {
    var url := pre + m + rest;
    var p := |pre|;
    assert forall i :: 1 <= i < |m| ==> m[i] != 'y';
    forall q | 0 <= q <= |url| ensures !MatchesAt(url, q) {
      if q < p {
        assert url[q] == pre[q];
        NoMatchWithoutY(url, q);
      } else if q == p {
        assert url[p..p + |m|] == m;
        MarkersExclusive(url, p);
        if rest != [] {
          assert url[p + |m|] == rest[0];
        }
      } else if q < p + |m| {
        assert url[q] == m[q - p];
        NoMatchWithoutY(url, q);
      } else if q < |url| {
        assert url[q] == rest[q - p - |m|];
        NoMatchWithoutY(url, q);
      }
    }
  }
}
