/**
 * api/youtube_text_extractor.py: the extractor written for the React app.
 *
 * It accepts watch, short, embed and live links, looks the video's metadata
 * up, lists the caption tracks, chooses one by the preference list of
 * `TrackPolicy`, fetches it (trying a Korean translation and then the
 * original again when a fetch raises), and normalises the cue texts into one
 * sentence per paragraph. A URL that names no video fails without recording
 * an error.
 */
module ReactExtractor {
  import opened Wrappers
  import opened Types
  import opened Normalizer
  import opened Formatting
  import opened UrlResolver
  import opened TrackPolicy
  import opened Envelopes

  /** The keys of the metadata lookup's answer that `video_info` keeps; a key may be absent or hold `None`. */
  datatype Metadata = Metadata(title: Slot<string>, uploader: Slot<string>, duration: Slot<int>)

  /** What the metadata and caption services do for this video. */
  datatype VideoServices = VideoServices(
    metadata: CallOutcome<Metadata>,
    listing: CallOutcome<seq<Track>>,
    fetches: FetchScript)

  const NoInformation := "정보 없음"

  /**
   * The `video_info` `get_video_info` sets. After a lookup, each key is set:
   * to the answer's value when it has one, to `None` when the answer holds
   * `None` there, to the default when the answer lacks the key. After a lookup
   * that raised, title and channel are placeholders and the duration is absent.
   */
  function LookedUpInfo(videoId: string, metadata: CallOutcome<Metadata>): (v: VideoInfo)
    ensures v.videoId == Holds(videoId) && !v.title.Absent? && !v.channel.Absent?
    ensures v.duration.Absent? <==> metadata.Raised?
    ensures metadata.Returned? ==> Copied(metadata.value.title, v.title, MissingTitle)
    ensures metadata.Returned? ==> Copied(metadata.value.uploader, v.channel, MissingChannel)
    ensures metadata.Returned? ==> Copied(metadata.value.duration, v.duration, 0)
    ensures metadata.Raised? ==> v.title == Holds(NoInformation) && v.channel == Holds(NoInformation)
  {
    match metadata
    case Returned(m) =>
      VideoInfo(Stored(m.title.Get(MissingTitle)), Stored(m.uploader.Get(MissingChannel)), Stored(m.duration.Get(0)), Holds(videoId))
    case Raised(_) =>
      VideoInfo(Holds(NoInformation), Holds(NoInformation), Absent, Holds(videoId))
  }

  /** `to` is what `info.get(key, default)` stores when the answer's key is `from`. */
  predicate Copied<T(==)>(from: Slot<T>, to: Slot<T>, default: T) {
    match from
    case Absent => to == Holds(default)
    case Null => to == Null
    case Holds(x) => to == Holds(x)
  }

  /** The track `extract_transcript` fetches, `None` when the listing raised or was empty. */
  function ChosenTrack(listing: CallOutcome<seq<Track>>): (r: Option<Track>)
    ensures r.Some? <==> listing.Returned? && listing.value != []
  {
    match listing
    case Raised(_) => None
    case Returned(tracks) =>
      match Preferred(tracks)
      case None => None
      case Some(j) => Some(tracks[j])
  }

  /** The fetch calls of the chain on `track`, one per attempt. */
  function FetchCalls(track: Track, attempts: seq<Attempt>): (r: seq<ServiceCall>)
    ensures |r| == |attempts|
    ensures forall i :: 0 <= i < |attempts| ==> r[i] == FetchTrack(track, attempts[i].translatedTo)
  {
    seq(|attempts|, i requires 0 <= i < |attempts| => FetchTrack(track, attempts[i].translatedTo))
  }

  /** The calls `extract_transcript` makes: the listing, then the fetch chain on the chosen track. */
  function ExtractionCalls(videoId: string, s: VideoServices): seq<ServiceCall> {
    match ChosenTrack(s.listing)
    case None => [ListTranscripts(videoId)]
    case Some(t) => [ListTranscripts(videoId)] + FetchCalls(t, Attempts(s.fetches))
  }

  /** Whether the extraction succeeds: a track was chosen and the fetch chain delivered cues. */
  predicate ExtractionSucceeds(s: VideoServices) {
    ChosenTrack(s.listing).Some? && FetchSucceeds(s.fetches)
  }

  /** The `YouTubeTextExtractor` class of api/youtube_text_extractor.py. */
  class Extractor {
    var videoInfo: VideoInfo
    var transcriptData: seq<Cue>
    var formattedText: string
    var errorDetails: string
    /** The calls made to the metadata and caption services, oldest first. */
    ghost var calls: seq<ServiceCall>

    constructor ()
      ensures videoInfo == NoVideoInfo && transcriptData == [] && formattedText == "" && errorDetails == ""
      ensures calls == []
    {
      videoInfo := NoVideoInfo;
      transcriptData := [];
      formattedText := "";
      errorDetails := "";
      calls := [];
    }

    method GetVideoInfo(videoId: string, metadata: CallOutcome<Metadata>)
      modifies this
      ensures videoInfo == LookedUpInfo(videoId, metadata)
      ensures transcriptData == old(transcriptData) && formattedText == old(formattedText)
      ensures errorDetails == old(errorDetails) && calls == old(calls) + [MetadataLookup(videoId)]
    {
      calls := calls + [MetadataLookup(videoId)];
      match metadata
      case Returned(m) =>
        videoInfo := VideoInfo(Stored(m.title.Get(MissingTitle)), Stored(m.uploader.Get(MissingChannel)), Stored(m.duration.Get(0)), Holds(videoId));
      case Raised(_) =>
        videoInfo := VideoInfo(Holds(NoInformation), Holds(NoInformation), Absent, Holds(videoId));
    }

    /**
     * The fetch, the fetch of the Korean translation, the fetch once more; each
     * only when the one before raised. The `FetchTrack(track, Some("ko"))`
     * entry stands for the pair `translate('ko')` then `fetch()`, and is
     * recorded also when `translate` itself raises.
     */
    method FetchChosen(track: Track, script: FetchScript) returns (ok: bool)
      modifies this
      ensures ok == FetchSucceeds(script)
      ensures transcriptData == FetchedCues(script, old(transcriptData))
      ensures calls == old(calls) + FetchCalls(track, Attempts(script))
      ensures videoInfo == old(videoInfo) && formattedText == old(formattedText) && errorDetails == old(errorDetails)
    {
      calls := calls + [FetchTrack(track, None)];
      match script.first
      case Returned(data) =>
        transcriptData := data;
        return |data| > 0;
      case Raised(_) =>
        calls := calls + [FetchTrack(track, Some("ko"))];
        match script.translated
        case Returned(data) =>
          transcriptData := data;
          return |data| > 0;
        case Raised(_) =>
          calls := calls + [FetchTrack(track, None)];
          match script.retry
          case Returned(data) =>
            transcriptData := data;
            return |data| > 0;
          case Raised(_) =>
            return false;
    }

    method ExtractTranscript(videoId: string, services: VideoServices) returns (ok: bool)
      modifies this
      ensures ok == ExtractionSucceeds(services)
      ensures transcriptData ==
        (if ChosenTrack(services.listing).Some? then FetchedCues(services.fetches, old(transcriptData)) else old(transcriptData))
      ensures errorDetails == (if services.listing.Raised? then services.listing.message else old(errorDetails))
      ensures videoInfo == old(videoInfo) && formattedText == old(formattedText)
      ensures calls == old(calls) + ExtractionCalls(videoId, services)
    {
      calls := calls + [ListTranscripts(videoId)];
      match services.listing
      case Raised(m) =>
        errorDetails := m;
        return false;
      case Returned(tracks) =>
        var chosen := SelectTrack(tracks);
        if chosen.None? {
          return false;
        }
        ok := FetchChosen(tracks[chosen.value], services.fetches);
    }

    /** With no cues, returns the empty text and leaves `formatted_text` as it was. */
    method FormatTranscript() returns (text: string)
      modifies this
      ensures transcriptData == [] ==> text == "" && formattedText == old(formattedText)
      ensures transcriptData != [] ==> text == formattedText == Normalize(CueTexts(transcriptData))
      ensures videoInfo == old(videoInfo) && transcriptData == old(transcriptData)
      ensures errorDetails == old(errorDetails) && calls == old(calls)
    {
      if |transcriptData| == 0 {
        return "";
      }
      formattedText := FormatLines(CueTexts(transcriptData));
      text := formattedText;
    }

    /** A URL that names no video raises inside the method; the exception is swallowed and nothing changes. */
    method ProcessYoutubeUrl(url: string, services: VideoServices) returns (ok: bool)
      modifies this
      ensures ExtractVideoId(url).None? ==>
        && !ok && errorDetails == old(errorDetails)
        && videoInfo == old(videoInfo) && transcriptData == old(transcriptData)
        && formattedText == old(formattedText) && calls == old(calls)
      ensures ExtractVideoId(url).Some? ==>
        var id := ExtractVideoId(url).value;
        && ok == ExtractionSucceeds(services)
        && videoInfo == LookedUpInfo(id, services.metadata)
        && transcriptData ==
          (if ChosenTrack(services.listing).Some? then FetchedCues(services.fetches, old(transcriptData)) else old(transcriptData))
        && errorDetails == (if services.listing.Raised? then services.listing.message else old(errorDetails))
        && formattedText == (if ok then Normalize(CueTexts(transcriptData)) else old(formattedText))
        && calls == old(calls) + [MetadataLookup(id)] + ExtractionCalls(id, services)
    {
      var videoId := ExtractVideoId(url);
      if videoId.None? {
        return false;
      }
      GetVideoInfo(videoId.value, services.metadata);
      ok := ExtractTranscript(videoId.value, services);
      if ok {
        SuccessDeliversCues(services);
        var _ := FormatTranscript();
      }
    }
  }

  /** A successful extraction leaves at least one cue, whatever the cue list held before. */
  lemma SuccessDeliversCues(s: VideoServices)
    requires ExtractionSucceeds(s)
    ensures forall previous: seq<Cue> :: FetchedCues(s.fetches, previous) != []
  {
    SuccessIsSomeDelivery(s.fetches);
  }
}
