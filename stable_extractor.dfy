/**
 * youtube_text_extractor.py: the stable extractor the command-line entry
 * point drives.
 *
 * It accepts watch, short, embed and live links, sets placeholder video
 * information, lists the video's caption tracks, looks one up by language,
 * fetches it, and normalises the cue texts into one sentence per paragraph.
 * A cue whose `'text'` key is missing is skipped.
 */
module StableExtractor {
  import opened Wrappers
  import opened Types
  import opened Normalizer
  import opened Formatting
  import opened UrlResolver
  import opened TrackPolicy
  import opened ErrorMessages

  /** What `list_transcripts` gives: the library's lookup by language, and the tracks in listing order. */
  datatype Listing = Listing(found: map<string, Track>, listed: seq<Track>)

  /** What the caption service does for this video: list its tracks, then fetch the one chosen. */
  datatype CaptionService = CaptionService(listing: CallOutcome<Listing>, fetched: CallOutcome<seq<Entry>>)

  const ListingFailurePrefix := "자막 목록 가져오기 실패: "
  const FetchFailurePrefix := "자막 데이터 가져오기 실패: "

  /** The track `extract_transcript` fetches, `None` when the listing raised or offered nothing. */
  function ChosenTrack(s: CaptionService): Option<Track> {
    match s.listing
    case Raised(_) => None
    case Returned(l) => LookedUp(l.found, l.listed)
  }

  /** The cue list of a successful extraction, `None` for a failed one. */
  function Extracted(s: CaptionService): (r: Option<seq<Entry>>)
    ensures r.Some? ==> r.value != [] && ChosenTrack(s).Some? && s.fetched == Returned(r.value)
    ensures r.None? ==> ChosenTrack(s).None? || !Delivered(s.fetched)
  {
    if ChosenTrack(s).Some? && Delivered(s.fetched) then Some(s.fetched.value) else None
  }

  /** The `error_details` a failed extraction leaves: the listing's or the fetch's exception, with a prefix, or `previous`. */
  function ExtractionError(s: CaptionService, previous: string): string {
    match s.listing
    case Raised(m) => ListingFailurePrefix + m
    case Returned(_) =>
      if ChosenTrack(s).Some? && s.fetched.Raised? then FetchFailurePrefix + s.fetched.message else previous
  }

  /** The calls `extract_transcript` makes: the listing, then the fetch of the chosen track. */
  function ExtractionCalls(videoId: string, s: CaptionService): (r: seq<ServiceCall>)
    ensures |r| == (if ChosenTrack(s).Some? then 2 else 1) && r[0] == ListTranscripts(videoId)
  {
    match ChosenTrack(s)
    case None => [ListTranscripts(videoId)]
    case Some(t) => [ListTranscripts(videoId), FetchTrack(t, None)]
  }

  /** The `video_info` `get_video_info` sets: a title made from the id, no channel, no duration. */
  function PlaceholderInfo(videoId: string): VideoInfo {
    VideoInfo(Holds("Video " + videoId), Holds("정보 없음"), Holds(0), Holds(videoId))
  }

  /** The `YouTubeTextExtractor` class of youtube_text_extractor.py. */
  class Extractor {
    var videoInfo: VideoInfo
    var transcriptData: seq<Entry>
    var formattedText: string
    var errorDetails: string
    /** The calls made to the caption service, oldest first. */
    ghost var calls: seq<ServiceCall>

    constructor ()
      ensures videoInfo == NoVideoInfo && transcriptData == [] && formattedText == "" && errorDetails == ""
      ensures calls == []
    {
      videoInfo := NoVideoInfo;
      transcriptData := [];
      formattedText := "";
      errorDetails := "";
      calls := [];
    }

    method GetVideoInfo(videoId: string)
      modifies this
      ensures videoInfo == PlaceholderInfo(videoId)
      ensures transcriptData == old(transcriptData) && formattedText == old(formattedText)
      ensures errorDetails == old(errorDetails) && calls == old(calls)
    {
      videoInfo := PlaceholderInfo(videoId);
    }

    /**
     * List, choose, fetch. The cue list is replaced whenever the fetch
     * returns, even with no cues; the error is recorded only when a call
     * raises.
     */
    method ExtractTranscript(videoId: string, service: CaptionService) returns (ok: bool)
      modifies this
      ensures ok <==> Extracted(service).Some?
      ensures transcriptData ==
        (if ChosenTrack(service).Some? && service.fetched.Returned? then service.fetched.value else old(transcriptData))
      ensures errorDetails == ExtractionError(service, old(errorDetails))
      ensures videoInfo == old(videoInfo) && formattedText == old(formattedText)
      ensures calls == old(calls) + ExtractionCalls(videoId, service)
    {
      calls := calls + [ListTranscripts(videoId)];
      match service.listing
      case Raised(m) =>
        errorDetails := ListingFailurePrefix + m;
        return false;
      case Returned(listing) =>
        var transcript := LookupTrack(listing.found, listing.listed);
        if transcript.None? {
          return false;
        }
        calls := calls + [FetchTrack(transcript.value, None)];
        match service.fetched
        case Raised(m) =>
          errorDetails := FetchFailurePrefix + m;
          ok := false;
        case Returned(data) =>
          transcriptData := data;
          ok := |data| > 0;
    }

    /** With no cues, returns the empty text and leaves `formatted_text` as it was. */
    method FormatTranscript() returns (text: string)
      modifies this
      ensures transcriptData == [] ==> text == "" && formattedText == old(formattedText)
      ensures transcriptData != [] ==> text == formattedText == Normalize(PresentTexts(transcriptData))
      ensures videoInfo == old(videoInfo) && transcriptData == old(transcriptData)
      ensures errorDetails == old(errorDetails) && calls == old(calls)
    {
      if |transcriptData| == 0 {
        return "";
      }
      formattedText := FormatLines(PresentTexts(transcriptData));
      text := formattedText;
    }

    method ProcessYoutubeUrl(url: string, service: CaptionService) returns (ok: bool)
      modifies this
      ensures ExtractVideoId(url).None? ==>
        && !ok && errorDetails == InvalidUrlMessage
        && videoInfo == old(videoInfo) && transcriptData == old(transcriptData)
        && formattedText == old(formattedText) && calls == old(calls)
      ensures ExtractVideoId(url).Some? ==>
        var id := ExtractVideoId(url).value;
        && ok == Extracted(service).Some?
        && videoInfo == PlaceholderInfo(id)
        && transcriptData ==
          (if ChosenTrack(service).Some? && service.fetched.Returned? then service.fetched.value else old(transcriptData))
        && errorDetails == ExtractionError(service, old(errorDetails))
        && formattedText == (if ok then Normalize(PresentTexts(Extracted(service).value)) else old(formattedText))
        && calls == old(calls) + ExtractionCalls(id, service)
    {
      var videoId := ExtractVideoId(url);
      if videoId.None? {
        errorDetails := InvalidUrlMessage;
        return false;
      }
      GetVideoInfo(videoId.value);
      ok := ExtractTranscript(videoId.value, service);
      if ok {
        var _ := FormatTranscript();
      }
    }
  }
}
