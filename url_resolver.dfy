/**
 * `extract_video_id`: a hand-written matcher for the two regular expressions
 *
 *   (?:youtube\.com\/watch\?v=|youtu\.be\/|youtube\.com\/embed\/)([^&\n?#]+)
 *   youtube\.com\/live\/([^&\n?#]+)
 *
 * tried in that order with `re.search`, and for the single expression of
 * api/extract.py, which has only the first two alternatives.
 *
 * `re.search` reports the leftmost position where the whole pattern matches;
 * at one position it tries the alternatives in order, and an alternative that
 * is not followed by at least one identifier character is abandoned for the
 * next one. The captured group is the greedy run of identifier characters.
 */
module UrlResolver {
  import opened Wrappers
  import opened Text

  const WatchMarker := "youtube.com/watch?v="
  const ShortMarker := "youtu.be/"
  const EmbedMarker := "youtube.com/embed/"
  const LiveMarker := "youtube.com/live/"

  /** The alternatives of the first pattern, in the order the regex tries them. */
  const VideoMarkers: seq<string> := [WatchMarker, ShortMarker, EmbedMarker]

  /** The second pattern, consulted only when the first matches nowhere. */
  const LiveMarkers: seq<string> := [LiveMarker]

  /** The alternatives of the one pattern in api/extract.py. */
  const LinkMarkers: seq<string> := [WatchMarker, ShortMarker]

  /** A character of `[^&\n?#]`. */
  predicate IsIdChar(c: char) {
    c != '&' && c != '\n' && c != '?' && c != '#'
  }

  /** What every resolved identifier looks like: non-empty, no `&`, newline, `?` or `#`. */
  predicate IsVideoId(id: string) {
    |id| > 0 && forall k :: 0 <= k < |id| ==> IsIdChar(id[k])
  }

  /** `m([^&\n?#]+)` matches at `i`: `m` starts at `i` and an identifier character follows it. */
  predicate MatchesAt(s: string, i: nat, m: string) {
    OccursAt(s, m, i) && i + |m| < |s| && IsIdChar(s[i + |m|])
  }

  /** The end of the greedy run of identifier characters that starts at `j`. */
  function RunEnd(s: string, j: nat): (e: nat)
    requires j <= |s|
    ensures j <= e <= |s|
    ensures forall k :: j <= k < e ==> IsIdChar(s[k])
    ensures e == |s| || !IsIdChar(s[e])
    decreases |s| - j
  {
    if j < |s| && IsIdChar(s[j]) then RunEnd(s, j + 1) else j
  }

  /** The first alternative, from index `k` on, that matches at position `i`. */
  function FirstMarkerAt(s: string, i: nat, markers: seq<string>, k: nat): (r: Option<nat>)
    requires k <= |markers|
    ensures r.Some? ==> k <= r.value < |markers| && MatchesAt(s, i, markers[r.value])
    ensures forall j :: k <= j < |markers| && (r.None? || j < r.value) ==> !MatchesAt(s, i, markers[j])
    decreases |markers| - k
  {
    if k == |markers| then None
    else if MatchesAt(s, i, markers[k]) then Some(k)
    else FirstMarkerAt(s, i, markers, k + 1)
  }

  /** Where a match was found: its position and the index of the alternative that matched. */
  datatype Match = Match(position: nat, marker: nat)

  /** The leftmost match at or after `i`, and at that position the first alternative that matches. */
  function FindMatch(s: string, markers: seq<string>, i: nat): (r: Option<Match>)
    requires i <= |s|
    ensures r.Some? ==> i <= r.value.position < |s| && r.value.marker < |markers|
    ensures r.Some? ==> MatchesAt(s, r.value.position, markers[r.value.marker])
    ensures r.Some? ==> forall k :: 0 <= k < r.value.marker ==> !MatchesAt(s, r.value.position, markers[k])
    ensures forall p: nat, k :: i <= p && (r.None? || p < r.value.position) && 0 <= k < |markers| ==>
              !MatchesAt(s, p, markers[k])
    decreases |s| - i
  {
    if i == |s| then None
    else
      match FirstMarkerAt(s, i, markers, 0)
      case Some(k) => Some(Match(i, k))
      case None => FindMatch(s, markers, i + 1)
  }

  /**
   * `re.search` found its match at position `p` with alternative `k`: it
   * matches there, nowhere further left, and no earlier alternative matches at `p`.
   */
  ghost predicate LeftmostMatch(s: string, markers: seq<string>, p: nat, k: nat) {
    && k < |markers|
    && MatchesAt(s, p, markers[k])
    && (forall q: nat, j :: q < p && 0 <= j < |markers| ==> !MatchesAt(s, q, markers[j]))
    && (forall j :: 0 <= j < k ==> !MatchesAt(s, p, markers[j]))
  }

  /** `re.search(pattern, s)` and its group 1, for the pattern `(?:markers...)([^&\n?#]+)`. */
  function Search(s: string, markers: seq<string>): (r: Option<string>)
    ensures r.None? <==> forall p: nat, k :: 0 <= k < |markers| ==> !MatchesAt(s, p, markers[k])
    ensures r.Some? ==> IsVideoId(r.value)
  {
    match FindMatch(s, markers, 0)
    case None => None
    case Some(m) =>
      var start := m.position + |markers[m.marker]|;
      Some(s[start..RunEnd(s, start)])
  }

  /** `extract_video_id` of api/youtube_text_extractor.py and youtube_text_extractor.py. */
  function ExtractVideoId(url: string): (r: Option<string>)
    ensures r.Some? ==> IsVideoId(r.value)
    ensures Search(url, VideoMarkers).Some? ==> r == Search(url, VideoMarkers)
    ensures Search(url, VideoMarkers).None? ==> r == Search(url, LiveMarkers)
    ensures r.None? <==>
              && (forall p: nat, k :: 0 <= k < |VideoMarkers| ==> !MatchesAt(url, p, VideoMarkers[k]))
              && (forall p: nat :: !MatchesAt(url, p, LiveMarker))
  {
    match Search(url, VideoMarkers)
    case Some(id) => Some(id)
    case None =>
      assert forall p: nat :: MatchesAt(url, p, LiveMarker) ==> MatchesAt(url, p, LiveMarkers[0]);
      Search(url, LiveMarkers)
  }

  /** `extract_video_id` of api/extract.py: watch and short links only. */
  function ExtractLinkVideoId(url: string): (r: Option<string>)
    ensures r.Some? ==> IsVideoId(r.value)
    ensures r.None? <==>
              && (forall p: nat :: !MatchesAt(url, p, WatchMarker))
              && (forall p: nat :: !MatchesAt(url, p, ShortMarker))
  {
    var r := Search(url, LinkMarkers);
    assert forall p: nat :: MatchesAt(url, p, WatchMarker) ==> MatchesAt(url, p, LinkMarkers[0]);
    assert forall p: nat :: MatchesAt(url, p, ShortMarker) ==> MatchesAt(url, p, LinkMarkers[1]);
    r
  }

  /** Every marker begins with `y`, so a match can only start at a `y`. */
  lemma MatchStartsWithY(s: string, p: nat, m: string)
    requires m != [] && m[0] == 'y' && MatchesAt(s, p, m)
    ensures s[p] == 'y'
  {
    assert s[p..p + |m|][0] == s[p];
  }

  /** A marker does not match where the text disagrees with one of its characters. */
  lemma MismatchAt(s: string, p: nat, m: string, j: nat)
    requires j < |m| && p + j < |s| && s[p + j] != m[j]
    ensures !MatchesAt(s, p, m)
  {
  }

  /** Matching inside a suffix is matching in the whole string, shifted by the prefix. */
  lemma ShiftMatch(prefix: string, t: string, q: nat, m: string)
    ensures MatchesAt(prefix + t, |prefix| + q, m) <==> MatchesAt(t, q, m)
  {
    var s := prefix + t;
    if q + |m| <= |t| {
      assert s[|prefix| + q..|prefix| + q + |m|] == t[q..q + |m|];
    }
    if q + |m| < |t| {
      assert s[|prefix| + q + |m|] == t[q + |m|];
    }
  }

  /** All alternatives start with `y`. */
  ghost predicate StartWithY(markers: seq<string>) {
    forall j :: 0 <= j < |markers| ==> markers[j] != [] && markers[j][0] == 'y'
  }

  /** Nothing that starts among the first `n` characters can match when none of them is a `y`. */
  lemma NoMatchBeforeY(s: string, n: nat, markers: seq<string>)
    requires n <= |s| && 'y' !in s[..n] && StartWithY(markers)
    ensures forall q: nat, j :: q < n && 0 <= j < |markers| ==> !MatchesAt(s, q, markers[j])
  {
    forall q: nat, j | q < n && 0 <= j < |markers| ensures !MatchesAt(s, q, markers[j]) {
      assert s[..n][q] == s[q];
      if MatchesAt(s, q, markers[j]) {
        MatchStartsWithY(s, q, markers[j]);
      }
    }
  }

  /** A marker followed by a video identifier matches. */
  lemma MarkerThenId(prefix: string, marker: string, id: string)
    requires IsVideoId(id)
    ensures MatchesAt(prefix + marker + id, |prefix|, marker)
    ensures (prefix + marker + id)[|prefix| + |marker|..] == id
  {
    var url := prefix + marker + id;
    assert url[|prefix|..|prefix| + |marker|] == marker;
    assert url[|prefix| + |marker|] == id[0];
  }

  /** The identifier run reaches the end of a string whose tail is all identifier characters. */
  lemma RunToEnd(s: string, start: nat)
    requires start <= |s|
    requires forall k :: start <= k < |s| ==> IsIdChar(s[k])
    ensures RunEnd(s, start) == |s|
  {
  }

  /** `FindMatch` finds exactly the match that `LeftmostMatch` describes. */
  lemma FindLeftmost(s: string, markers: seq<string>, p: nat, k: nat)
    requires LeftmostMatch(s, markers, p, k)
    ensures FindMatch(s, markers, 0) == Some(Match(p, k))
  {
  }

  /**
   * What `re.search` reports: the greedy identifier run after the marker of
   * the leftmost match, at the first alternative that matches there.
   */
  lemma SearchIsLeftmostRun(s: string, markers: seq<string>, p: nat, k: nat)
    requires LeftmostMatch(s, markers, p, k)
    ensures Search(s, markers) == Some(s[p + |markers[k]|..RunEnd(s, p + |markers[k]|)])
  {
    FindLeftmost(s, markers, p, k);
  }

  /**
   * `prefix + marker + id` resolves to `id` when nothing before the marker can
   * match and no earlier alternative matches at the marker.
   */
  lemma ResolvesTo(prefix: string, markers: seq<string>, k: nat, id: string)
    requires 'y' !in prefix && StartWithY(markers)
    requires k < |markers| && IsVideoId(id)
    requires forall j :: 0 <= j < k ==> !MatchesAt(prefix + markers[k] + id, |prefix|, markers[j])
    ensures Search(prefix + markers[k] + id, markers) == Some(id)
  {
    LeftmostAtMarker(prefix, markers, k, id);
    MarkerThenId(prefix, markers[k], id);
    SearchGivesTail(prefix + markers[k] + id, markers, |prefix|, k, id);
  }

  /** In `prefix + marker + id` the leftmost match is the marker itself. */
  lemma LeftmostAtMarker(prefix: string, markers: seq<string>, k: nat, id: string)
    requires 'y' !in prefix && StartWithY(markers)
    requires k < |markers| && IsVideoId(id)
    requires forall j :: 0 <= j < k ==> !MatchesAt(prefix + markers[k] + id, |prefix|, markers[j])
    ensures LeftmostMatch(prefix + markers[k] + id, markers, |prefix|, k)
  {
    var url := prefix + markers[k] + id;
    assert url[..|prefix|] == prefix;
    NoMatchBeforeY(url, |prefix|, markers);
    MarkerThenId(prefix, markers[k], id);
  }

  /** When the leftmost match is followed by a whole identifier up to the end, the search returns that identifier. */
  lemma SearchGivesTail(url: string, markers: seq<string>, p: nat, k: nat, id: string)
    requires LeftmostMatch(url, markers, p, k)
    requires url[p + |markers[k]|..] == id && IsVideoId(id)
    ensures Search(url, markers) == Some(id)
  {
    var start := p + |markers[k]|;
    forall j | start <= j < |url| ensures IsIdChar(url[j]) {
      assert url[j] == id[j - start];
    }
    RunToEnd(url, start);
    SearchIsLeftmostRun(url, markers, p, k);
    assert url[start..RunEnd(url, start)] == url[start..];
  }

  /**
   * `prefix + marker + rest` matches nowhere when nothing before or inside the
   * marker can start a match, no alternative matches at the marker itself and
   * `rest` on its own matches nowhere.
   */
  lemma {:induction false} NoMatchAround(prefix: string, marker: string, rest: string, markers: seq<string>)
    requires 'y' !in prefix && marker != [] && 'y' !in marker[1..] && StartWithY(markers)
    requires forall j :: 0 <= j < |markers| ==> !MatchesAt(prefix + marker + rest, |prefix|, markers[j])
    requires Search(rest, markers) == None
    ensures Search(prefix + marker + rest, markers) == None
  {
    var url := prefix + marker + rest;
    var head := prefix + marker;
    assert url == head + rest;
    forall q: nat, j | 0 <= j < |markers| ensures !MatchesAt(url, q, markers[j]) {
      if q < |prefix| {
        assert url[q] == prefix[q];
        if MatchesAt(url, q, markers[j]) {
          MatchStartsWithY(url, q, markers[j]);
        }
      } else if |prefix| < q < |head| {
        assert url[q] == marker[1..][q - |prefix| - 1];
        if MatchesAt(url, q, markers[j]) {
          MatchStartsWithY(url, q, markers[j]);
        }
      } else if q >= |head| {
        ShiftMatch(head, rest, q - |head|, markers[j]);
      }
    }
  }

  /** At the start of a short link, the watch marker does not match. */
  lemma ShortIsNotWatch(prefix: string, rest: string)
    ensures !MatchesAt(prefix + ShortMarker + rest, |prefix|, WatchMarker)
  {
    var url := prefix + ShortMarker + rest;
    assert url[|prefix| + 5] == '.';
    MismatchAt(url, |prefix|, WatchMarker, 5);
  }

  /** At the start of an embed or live link, neither the watch nor the short marker matches. */
  lemma LongIsNotWatchOrShort(prefix: string, marker: string, rest: string)
    requires marker == EmbedMarker || marker == LiveMarker
    ensures !MatchesAt(prefix + marker + rest, |prefix|, WatchMarker)
    ensures !MatchesAt(prefix + marker + rest, |prefix|, ShortMarker)
  {
    var url := prefix + marker + rest;
    assert url[|prefix| + 5] == 'b';
    MismatchAt(url, |prefix|, ShortMarker, 5);
    assert url[|prefix| + 12] != 'w';
    MismatchAt(url, |prefix|, WatchMarker, 12);
  }

  /** At the start of a live link, the embed marker does not match. */
  lemma LiveIsNotEmbed(prefix: string, rest: string)
    ensures !MatchesAt(prefix + LiveMarker + rest, |prefix|, EmbedMarker)
  {
    var url := prefix + LiveMarker + rest;
    assert url[|prefix| + 12] == 'l';
    MismatchAt(url, |prefix|, EmbedMarker, 12);
  }

  /** A watch link resolves to the identifier after `watch?v=`. */
  lemma WatchShape(prefix: string, id: string)
    requires 'y' !in prefix && IsVideoId(id)
    ensures ExtractVideoId(prefix + WatchMarker + id) == Some(id)
  {
    ResolvesTo(prefix, VideoMarkers, 0, id);
  }

  /** A short link resolves to the identifier after `youtu.be/`. */
  lemma ShortShape(prefix: string, id: string)
    requires 'y' !in prefix && IsVideoId(id)
    ensures ExtractVideoId(prefix + ShortMarker + id) == Some(id)
  {
    ShortIsNotWatch(prefix, id);
    ResolvesTo(prefix, VideoMarkers, 1, id);
  }

  /** An embed link resolves to the identifier after `embed/`. */
  lemma EmbedShape(prefix: string, id: string)
    requires 'y' !in prefix && IsVideoId(id)
    ensures ExtractVideoId(prefix + EmbedMarker + id) == Some(id)
  {
    LongIsNotWatchOrShort(prefix, EmbedMarker, id);
    ResolvesTo(prefix, VideoMarkers, 2, id);
  }

  /** A live link resolves to its identifier, provided the identifier itself holds no watch, short or embed link. */
  lemma LiveShape(prefix: string, id: string)
    requires 'y' !in prefix && IsVideoId(id)
    requires Search(id, VideoMarkers) == None
    ensures ExtractVideoId(prefix + LiveMarker + id) == Some(id)
  {
    LongIsNotWatchOrShort(prefix, LiveMarker, id);
    LiveIsNotEmbed(prefix, id);
    NoMatchAround(prefix, LiveMarker, id, VideoMarkers);
    ResolvesTo(prefix, LiveMarkers, 0, id);
  }

  /** Every URL shape carrying the same identifier resolves to that identifier. */
  lemma ShapesAgree(prefix: string, id: string)
    requires 'y' !in prefix && IsVideoId(id)
    requires Search(id, VideoMarkers) == None
    ensures ExtractVideoId(prefix + WatchMarker + id) == Some(id)
    ensures ExtractVideoId(prefix + ShortMarker + id) == Some(id)
    ensures ExtractVideoId(prefix + EmbedMarker + id) == Some(id)
    ensures ExtractVideoId(prefix + LiveMarker + id) == Some(id)
  {
    WatchShape(prefix, id);
    ShortShape(prefix, id);
    EmbedShape(prefix, id);
    LiveShape(prefix, id);
  }

  /** The link-only resolver takes the identifier from a watch link. */
  lemma LinkWatchShape(prefix: string, id: string)
    requires 'y' !in prefix && IsVideoId(id)
    ensures ExtractLinkVideoId(prefix + WatchMarker + id) == Some(id)
  {
    ResolvesTo(prefix, LinkMarkers, 0, id);
  }

  /** The link-only resolver takes the identifier from a short link. */
  lemma LinkShortShape(prefix: string, id: string)
    requires 'y' !in prefix && IsVideoId(id)
    ensures ExtractLinkVideoId(prefix + ShortMarker + id) == Some(id)
  {
    ShortIsNotWatch(prefix, id);
    ResolvesTo(prefix, LinkMarkers, 1, id);
  }

  /** The link-only resolver finds nothing in an embed or live link whose identifier holds no further link. */
  lemma LinkIgnoresLong(prefix: string, marker: string, id: string)
    requires marker == EmbedMarker || marker == LiveMarker
    requires 'y' !in prefix && Search(id, LinkMarkers) == None
    ensures ExtractLinkVideoId(prefix + marker + id) == None
  {
    LongIsNotWatchOrShort(prefix, marker, id);
    NoMatchAround(prefix, marker, id, LinkMarkers);
  }

  /** api/extract.py resolves watch and short links like the fuller variants, and ignores embed and live links. */
  lemma LinkShapes(prefix: string, id: string)
    requires 'y' !in prefix && IsVideoId(id)
    requires Search(id, LinkMarkers) == None
    ensures ExtractLinkVideoId(prefix + WatchMarker + id) == Some(id)
    ensures ExtractLinkVideoId(prefix + ShortMarker + id) == Some(id)
    ensures ExtractLinkVideoId(prefix + EmbedMarker + id) == None
    ensures ExtractLinkVideoId(prefix + LiveMarker + id) == None
  {
    LinkWatchShape(prefix, id);
    LinkShortShape(prefix, id);
    LinkIgnoresLong(prefix, EmbedMarker, id);
    LinkIgnoresLong(prefix, LiveMarker, id);
  }

  /** A URL without the letter `y` names no video, in every variant. */
  lemma NoMarkerNoId(url: string)
    requires 'y' !in url
    ensures ExtractVideoId(url) == None && ExtractLinkVideoId(url) == None
  {
    forall p: nat, m: string | m != [] && m[0] == 'y' ensures !MatchesAt(url, p, m) {
      if MatchesAt(url, p, m) {
        MatchStartsWithY(url, p, m);
      }
    }
  }

  /**
   * Searching with the first alternatives of a list finds the same match as
   * searching with the whole list, when the remaining alternatives match nowhere.
   */
  lemma FindMatchFewerMarkers(s: string, few: seq<string>, all: seq<string>)
    requires |few| <= |all| && few == all[..|few|]
    requires forall p: nat, j :: |few| <= j < |all| ==> !MatchesAt(s, p, all[j])
    ensures FindMatch(s, few, 0) == FindMatch(s, all, 0)
  {
    var a := FindMatch(s, few, 0);
    var b := FindMatch(s, all, 0);
    assert forall j :: 0 <= j < |few| ==> few[j] == all[j];
    if a.Some? {
      assert MatchesAt(s, a.value.position, all[a.value.marker]);
      assert b.Some?;
      assert b.value.marker < |few|;
      assert MatchesAt(s, b.value.position, few[b.value.marker]);
      assert a.value.position == b.value.position;
      assert a.value.marker == b.value.marker;
    }
  }

  /** The link-only resolver never finds an identifier the fuller resolver misses, and agrees with it where no embed or live link matches. */
  lemma LinkResolverAgrees(url: string)
    ensures ExtractLinkVideoId(url).Some? ==> ExtractVideoId(url).Some?
    ensures (forall p: nat :: !MatchesAt(url, p, EmbedMarker) && !MatchesAt(url, p, LiveMarker)) ==>
              ExtractLinkVideoId(url) == ExtractVideoId(url)
  {
    if ExtractLinkVideoId(url).Some? {
      if p: nat :| MatchesAt(url, p, WatchMarker) {
        assert MatchesAt(url, p, VideoMarkers[0]);
      } else {
        var p: nat :| MatchesAt(url, p, ShortMarker);
        assert MatchesAt(url, p, VideoMarkers[1]);
      }
    }
    if forall p: nat :: !MatchesAt(url, p, EmbedMarker) && !MatchesAt(url, p, LiveMarker) {
      assert LinkMarkers == VideoMarkers[..2];
      FindMatchFewerMarkers(url, LinkMarkers, VideoMarkers);
      match FindMatch(url, LinkMarkers, 0)
      case Some(m) =>
        assert LinkMarkers[m.marker] == VideoMarkers[m.marker];
      case None =>
        assert forall p: nat :: !MatchesAt(url, p, LiveMarkers[0]);
    }
  }
}
