/**
 * Which caption track an extractor fetches, and how often it tries.
 *
 * api/youtube_text_extractor.py walks six (language, auto-generated)
 * preferences in order and takes the first advertised track that fits one,
 * else the first advertised track. It then fetches that track; only when the
 * fetch raises does it fetch a Korean translation, and only when that raises
 * does it fetch the original once more.
 *
 * youtube_text_extractor.py asks the caption library for each of four
 * language codes in turn, retries English, and else takes the first listed
 * track. The library's `find_transcript` is not part of this model: it is the
 * map `found` from a language code to the track it returns, a code outside
 * the map being one for which it raises.
 */
module TrackPolicy {
  import opened Wrappers
  import opened Types

  /** One entry of the preference list: a language code and whether the track is auto-generated. */
  datatype Preference = Preference(languageCode: string, generated: bool)

  /** Manual Korean, manual English, then auto-generated Korean, English, US English, British English. */
  const CaptionPreferences: seq<Preference> := [
    Preference("ko", false),
    Preference("en", false),
    Preference("ko", true),
    Preference("en", true),
    Preference("en-US", true),
    Preference("en-GB", true)
  ]

  predicate Fits(t: Track, p: Preference) {
    t.languageCode == p.languageCode && t.isGenerated == p.generated
  }

  /** The position of the first advertised track that fits `p`. */
  function FirstFitting(tracks: seq<Track>, p: Preference, from: nat): (r: Option<nat>)
    requires from <= |tracks|
    ensures r.Some? ==> from <= r.value < |tracks| && Fits(tracks[r.value], p)
    ensures forall i :: from <= i < |tracks| && (r.None? || i < r.value) ==> !Fits(tracks[i], p)
    decreases |tracks| - from
  {
    if from == |tracks| then None
    else if Fits(tracks[from], p) then Some(from)
    else FirstFitting(tracks, p, from + 1)
  }

  /** The track chosen by the preferences from the `k`-th on. */
  function ChooseFrom(tracks: seq<Track>, k: nat): (r: Option<nat>)
    requires k <= |CaptionPreferences|
    ensures r.Some? ==> r.value < |tracks|
    ensures r.None? <==> forall k', i :: k <= k' < |CaptionPreferences| && 0 <= i < |tracks| ==> !Fits(tracks[i], CaptionPreferences[k'])
    decreases |CaptionPreferences| - k
  {
    if k == |CaptionPreferences| then None
    else match FirstFitting(tracks, CaptionPreferences[k], 0)
      case Some(j) => Some(j)
      case None => ChooseFrom(tracks, k + 1)
  }

  /** The position of the track `extract_transcript` settles on, `None` when no track is advertised. */
  function Preferred(tracks: seq<Track>): (r: Option<nat>)
    ensures r.None? <==> tracks == []
    ensures r.Some? ==> r.value < |tracks|
  {
    match ChooseFrom(tracks, 0)
    case Some(j) => Some(j)
    case None => if tracks == [] then None else Some(0)
  }

  /**
   * The preference order decides: when the `k`-th preference is the first that
   * any track fits, the chosen track is the first one fitting it.
   */
  lemma {:induction false} PreferenceOrderDecides(tracks: seq<Track>, k: nat, j: nat)
    requires k < |CaptionPreferences| && j < |tracks| && Fits(tracks[j], CaptionPreferences[k])
    requires forall k', i :: 0 <= k' < k && 0 <= i < |tracks| ==> !Fits(tracks[i], CaptionPreferences[k'])
    requires forall i :: 0 <= i < j ==> !Fits(tracks[i], CaptionPreferences[k])
    ensures Preferred(tracks) == Some(j)
  {
    ChooseFromSkips(tracks, 0, k);
    assert FirstFitting(tracks, CaptionPreferences[k], 0) == Some(j);
  }

  /** Preferences that no track fits are passed over. */
  lemma {:induction false} ChooseFromSkips(tracks: seq<Track>, from: nat, k: nat)
    requires from <= k < |CaptionPreferences|
    requires forall k', i :: from <= k' < k && 0 <= i < |tracks| ==> !Fits(tracks[i], CaptionPreferences[k'])
    ensures ChooseFrom(tracks, from) == ChooseFrom(tracks, k)
    decreases k - from
  {
    if from < k {
      assert FirstFitting(tracks, CaptionPreferences[from], 0).None?;
      ChooseFromSkips(tracks, from + 1, k);
    }
  }

  /** When no track fits any preference, the first advertised track is taken. */
  lemma NoFitTakesFirst(tracks: seq<Track>)
    requires tracks != []
    requires forall k, i :: 0 <= k < |CaptionPreferences| && 0 <= i < |tracks| ==> !Fits(tracks[i], CaptionPreferences[k])
    ensures Preferred(tracks) == Some(0)
  {
  }

  /** A manual Korean track is always preferred, wherever it is advertised. */
  lemma ManualKoreanFirst(tracks: seq<Track>, j: nat)
    requires j < |tracks| && tracks[j] == Track("ko", false)
    requires forall i :: 0 <= i < j ==> tracks[i] != Track("ko", false)
    ensures Preferred(tracks) == Some(j)
  {
    PreferenceOrderDecides(tracks, 0, j);
  }

  /** The two loops of `extract_transcript` that pick the track, with their early exits. */
  method SelectTrack(tracks: seq<Track>) returns (chosen: Option<nat>)
    ensures chosen == Preferred(tracks)
  {
    chosen := None;
    var k := 0;
    while k < |CaptionPreferences|
      invariant 0 <= k <= |CaptionPreferences|
      invariant chosen.None?
      invariant ChooseFrom(tracks, 0) == ChooseFrom(tracks, k)
      decreases |CaptionPreferences| - k
    {
      var p := CaptionPreferences[k];
      var i := 0;
      while i < |tracks|
        invariant 0 <= i <= |tracks|
        invariant chosen.None? ==> FirstFitting(tracks, p, 0) == FirstFitting(tracks, p, i)
        invariant chosen.Some? ==> chosen == FirstFitting(tracks, p, 0)
        decreases |tracks| - i, if chosen.None? then 1 else 0
      {
        if Fits(tracks[i], p) {
          chosen := Some(i);
          break;
        }
        i := i + 1;
      }
      if chosen.Some? {
        return;
      }
      k := k + 1;
    }
    if |tracks| > 0 {
      chosen := Some(0);
    }
  }

  // ---------------------------------------------------------------------
  // Fetching the chosen track (api/youtube_text_extractor.py)

  /**
   * What the three possible fetches would do: the plain fetch, the fetch of
   * the Korean translation (raising when either `translate` or `fetch`
   * raises), and the plain fetch once more.
   */
  datatype FetchScript = FetchScript(
    first: CallOutcome<seq<Cue>>,
    translated: CallOutcome<seq<Cue>>,
    retry: CallOutcome<seq<Cue>>)

  /** One fetch the extractor makes: of the translation into `translatedTo`, or of the original. */
  datatype Attempt = Attempt(translatedTo: Option<string>, outcome: CallOutcome<seq<Cue>>)

  /** The fetches made, in order. */
  function Attempts(s: FetchScript): (r: seq<Attempt>)
    ensures 1 <= |r| <= 3 && r[0] == Attempt(None, s.first)
    ensures forall i :: 0 <= i < |r| - 1 ==> r[i].outcome.Raised?
    ensures forall i :: 0 <= i < |r| ==> (r[i].translatedTo.Some? <==> i == 1)
    ensures forall i :: 0 <= i < |r| && r[i].translatedTo.Some? ==> r[i].translatedTo.value == "ko"
    ensures |r| == 1 <==> s.first.Returned?
    ensures |r| == 3 <==> s.first.Raised? && s.translated.Raised?
    ensures forall i :: 0 <= i < |r| ==> r[i].outcome == [s.first, s.translated, s.retry][i]
  {
    if s.first.Returned? then [Attempt(None, s.first)]
    else if s.translated.Returned? then [Attempt(None, s.first), Attempt(Some("ko"), s.translated)]
    else [Attempt(None, s.first), Attempt(Some("ko"), s.translated), Attempt(None, s.retry)]
  }

  /** The extraction succeeds when the last fetch made returned at least one cue. */
  predicate FetchSucceeds(s: FetchScript) {
    var r := Attempts(s);
    Delivered(r[|r| - 1].outcome)
  }

  /** The cue list held after the fetches: what the last fetch that returned gave, or `previous` when every fetch raised. */
  function FetchedCues(s: FetchScript, previous: seq<Cue>): seq<Cue> {
    var r := Attempts(s);
    var last := r[|r| - 1].outcome;
    if last.Returned? then last.value else previous
  }

  /** Success means some fetch delivered cues; the chain never goes on after a fetch that returned, even an empty one. */
  lemma SuccessIsSomeDelivery(s: FetchScript)
    ensures FetchSucceeds(s) <==> exists i :: 0 <= i < |Attempts(s)| && Delivered(Attempts(s)[i].outcome)
    ensures FetchSucceeds(s) ==> FetchedCues(s, []) != []
  {
    var r := Attempts(s);
    if exists i :: 0 <= i < |r| && Delivered(r[i].outcome) {
      var i :| 0 <= i < |r| && Delivered(r[i].outcome);
      assert i == |r| - 1;
    }
  }

  /** A first fetch that returns no cues fails at once: no translation is tried. */
  lemma EmptyFirstFetchIsFinal(s: FetchScript)
    requires s.first == Returned([])
    ensures Attempts(s) == [Attempt(None, s.first)] && !FetchSucceeds(s)
  {
  }

  // ---------------------------------------------------------------------
  // Looking a track up by language (youtube_text_extractor.py)

  /** The language codes tried in order. */
  const LookupLanguages: seq<string> := ["ko", "en", "en-US", "en-GB"]

  /** The first of `LookupLanguages`, from the `k`-th on, that the library finds. */
  function FirstFound(found: map<string, Track>, k: nat): (r: Option<nat>)
    requires k <= |LookupLanguages|
    ensures r.Some? ==> k <= r.value < |LookupLanguages| && LookupLanguages[r.value] in found
    ensures forall j :: k <= j < |LookupLanguages| && (r.None? || j < r.value) ==> LookupLanguages[j] !in found
    decreases |LookupLanguages| - k
  {
    if k == |LookupLanguages| then None
    else if LookupLanguages[k] in found then Some(k)
    else FirstFound(found, k + 1)
  }

  /** The track `extract_transcript` settles on, as the source writes it: the four lookups, a second English lookup, then the first listed track. */
  function LookedUp(found: map<string, Track>, listed: seq<Track>): Option<Track> {
    match FirstFound(found, 0)
    case Some(k) => Some(found[LookupLanguages[k]])
    case None =>
      if "en" in found then Some(found["en"])
      else if listed != [] then Some(listed[0])
      else None
  }

  /** The second English lookup never finds anything the loop missed; the first listed track is the only fallback. */
  lemma SecondEnglishLookupIsRedundant(found: map<string, Track>, listed: seq<Track>)
    ensures FirstFound(found, 0).None? ==> "en" !in found
    ensures LookedUp(found, listed) ==
      (match FirstFound(found, 0)
       case Some(k) => Some(found[LookupLanguages[k]])
       case None => if listed != [] then Some(listed[0]) else None)
  {
    assert LookupLanguages[1] == "en";
  }

  /** Korean wins whenever the library finds it; nothing is chosen only when nothing is found and nothing is listed. */
  lemma LookupPrefersKorean(found: map<string, Track>, listed: seq<Track>)
    ensures "ko" in found ==> LookedUp(found, listed) == Some(found["ko"])
    ensures LookedUp(found, listed).None? <==> (forall j :: 0 <= j < |LookupLanguages| ==> LookupLanguages[j] !in found) && listed == []
  {
    assert LookupLanguages[0] == "ko";
    assert LookupLanguages[1] == "en";
  }

  /** The loop of `extract_transcript` over the four codes, with its early exit, and the fallbacks after it. */
  method LookupTrack(found: map<string, Track>, listed: seq<Track>) returns (chosen: Option<Track>)
    ensures chosen == LookedUp(found, listed)
  {
    chosen := None;
    var k := 0;
    while k < |LookupLanguages|
      invariant 0 <= k <= |LookupLanguages|
      invariant chosen.None? && FirstFound(found, 0) == FirstFound(found, k)
      decreases |LookupLanguages| - k
    {
      var code := LookupLanguages[k];
      if code in found {
        chosen := Some(found[code]);
        return;
      }
      k := k + 1;
    }
    if "en" in found {
      chosen := Some(found["en"]);
    } else if listed != [] {
      chosen := Some(listed[0]);
    }
  }
}
