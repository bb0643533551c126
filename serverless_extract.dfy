/**
 * api/extract.py: the serverless extractor and its POST handler.
 *
 * The extractor accepts watch and short links only, sets placeholder video
 * information, asks the caption library for Korean, then English, then any
 * captions, and joins the stripped cue texts with spaces. The handler reads
 * the request body, runs a fresh extractor and answers 200 with the text or
 * 400 with a classified error message; a body it cannot read gives 500.
 */
module ServerlessExtract {
  import opened Wrappers
  import opened Text
  import opened Types
  import opened Normalizer
  import opened Formatting
  import opened UrlResolver
  import opened ErrorMessages
  import opened Envelopes

  /**
   * What `YouTubeTranscriptApi.get_transcript` does for the video when asked
   * for Korean, for English, and with no language list.
   */
  datatype CaptionService = CaptionService(
    korean: CallOutcome<seq<Entry>>,
    english: CallOutcome<seq<Entry>>,
    anyLanguage: CallOutcome<seq<Entry>>)

  /** The outcome of the Korean, English, any-language chain: the first call that returns, else the last one's exception. */
  function Fetched(s: CaptionService): (r: CallOutcome<seq<Entry>>)
    ensures r.Returned? <==> s.korean.Returned? || s.english.Returned? || s.anyLanguage.Returned?
    ensures s.korean.Returned? ==> r == s.korean
    ensures s.korean.Raised? && s.english.Returned? ==> r == s.english
    ensures s.korean.Raised? && s.english.Raised? ==> r == s.anyLanguage
  {
    if s.korean.Returned? then s.korean
    else if s.english.Returned? then s.english
    else s.anyLanguage
  }

  /** The calls the chain makes: a language is asked for only when every earlier request raised. */
  function TranscriptRequests(videoId: string, s: CaptionService): (r: seq<ServiceCall>)
    ensures 1 <= |r| <= 3
    ensures forall i :: 0 <= i < |r| ==> r[i] == GetTranscript(videoId, [Some(["ko"]), Some(["en"]), None][i])
    ensures |r| == 1 <==> s.korean.Returned?
    ensures |r| == 3 <==> s.korean.Raised? && s.english.Raised?
  {
    if s.korean.Returned? then [GetTranscript(videoId, Some(["ko"]))]
    else if s.english.Returned? then [GetTranscript(videoId, Some(["ko"])), GetTranscript(videoId, Some(["en"]))]
    else [GetTranscript(videoId, Some(["ko"])), GetTranscript(videoId, Some(["en"])), GetTranscript(videoId, None)]
  }

  /** The `video_info` `get_video_info` sets: a title made from the id, no channel, no duration. */
  function PlaceholderInfo(videoId: string): VideoInfo {
    VideoInfo(Holds("YouTube Video " + videoId), Holds("Unknown"), Holds(0), Holds(videoId))
  }

  /** The `YouTubeTextExtractor` class of api/extract.py. */
  class Extractor {
    var videoInfo: VideoInfo
    var transcriptData: seq<Entry>
    var formattedText: string
    var errorDetails: string
    /** The calls made to the caption service, oldest first. */
    ghost var calls: seq<ServiceCall>

    constructor ()
      ensures videoInfo == NoVideoInfo && transcriptData == [] && formattedText == "" && errorDetails == ""
      ensures calls == []
    {
      videoInfo := NoVideoInfo;
      transcriptData := [];
      formattedText := "";
      errorDetails := "";
      calls := [];
    }

    method GetVideoInfo(videoId: string)
      modifies this
      ensures videoInfo == PlaceholderInfo(videoId)
      ensures transcriptData == old(transcriptData) && formattedText == old(formattedText)
      ensures errorDetails == old(errorDetails) && calls == old(calls)
    {
      videoInfo := PlaceholderInfo(videoId);
    }

    /** Korean, else English, else any language; the data is kept whenever a call returns, and success means it is non-empty. */
    method ExtractTranscript(videoId: string, service: CaptionService) returns (ok: bool)
      modifies this
      ensures ok <==> Delivered(Fetched(service))
      ensures Fetched(service).Returned? ==> transcriptData == Fetched(service).value && errorDetails == old(errorDetails)
      ensures Fetched(service).Raised? ==> transcriptData == old(transcriptData) && errorDetails == Fetched(service).message
      ensures videoInfo == old(videoInfo) && formattedText == old(formattedText)
      ensures calls == old(calls) + TranscriptRequests(videoId, service)
    {
      calls := calls + [GetTranscript(videoId, Some(["ko"]))];
      var transcript := service.korean;
      if transcript.Raised? {
        calls := calls + [GetTranscript(videoId, Some(["en"]))];
        transcript := service.english;
        if transcript.Raised? {
          calls := calls + [GetTranscript(videoId, None)];
          transcript := service.anyLanguage;
        }
      }
      match transcript
      case Raised(message) =>
        errorDetails := message;
        ok := false;
      case Returned(data) =>
        transcriptData := data;
        ok := |data| > 0;
    }

    /** With no cues, returns the empty text and leaves `formatted_text` as it was. */
    method FormatTranscript() returns (text: string)
      modifies this
      ensures transcriptData == [] ==> text == "" && formattedText == old(formattedText)
      ensures transcriptData != [] ==> text == formattedText == SimpleFormat(transcriptData)
      ensures videoInfo == old(videoInfo) && transcriptData == old(transcriptData)
      ensures errorDetails == old(errorDetails) && calls == old(calls)
    {
      if |transcriptData| == 0 {
        return "";
      }
      formattedText := JoinKeptTexts(transcriptData);
      text := formattedText;
    }

    method ProcessYoutubeUrl(url: string, service: CaptionService) returns (ok: bool)
      modifies this
      ensures ExtractLinkVideoId(url).None? ==>
        && !ok && errorDetails == InvalidUrlMessage
        && videoInfo == old(videoInfo) && transcriptData == old(transcriptData)
        && formattedText == old(formattedText) && calls == old(calls)
      ensures ExtractLinkVideoId(url).Some? ==>
        var id := ExtractLinkVideoId(url).value;
        var fetched := Fetched(service);
        && ok == Delivered(fetched)
        && videoInfo == PlaceholderInfo(id)
        && transcriptData == (if fetched.Returned? then fetched.value else old(transcriptData))
        && errorDetails == (if fetched.Raised? then fetched.message else old(errorDetails))
        && formattedText == (if ok then SimpleFormat(fetched.value) else old(formattedText))
        && calls == old(calls) + TranscriptRequests(id, service)
    {
      var videoId := ExtractLinkVideoId(url);
      if videoId.None? {
        errorDetails := InvalidUrlMessage;
        return false;
      }
      GetVideoInfo(videoId.value);
      ok := ExtractTranscript(videoId.value, service);
      if ok {
        var _ := FormatTranscript();
      }
    }
  }

  // ---------------------------------------------------------------------
  // The POST handler

  /** The request as `do_POST` reads it: a body it could not read (the exception's text), or the body's `url` value. */
  datatype Request = Unreadable(message: string) | Body(url: Option<string>)

  datatype Response = Response(status: int, body: Envelope)

  const MissingUrlMessage := "URL이 필요합니다"
  const ServerErrorPrefix := "서버 오류: "

  /** The answer `do_POST` gives, as a function of the request and the caption service. */
  function PostResponse(request: Request, service: CaptionService): Response {
    match request
    case Unreadable(message) => Response(500, Failure(ServerErrorPrefix + message))
    case Body(url) =>
      if url.None? || url.value == [] then Response(400, Failure(MissingUrlMessage))
      else match ExtractLinkVideoId(url.value)
        case None => Response(400, Failure(HttpErrorMessage(InvalidUrlMessage)))
        case Some(id) =>
          var fetched := Fetched(service);
          if Delivered(fetched) && SimpleFormat(fetched.value) != [] then
            Response(200, Success(SimpleFormat(fetched.value), ReportedInfo(PlaceholderInfo(id), |fetched.value|)))
          else
            Response(400, Failure(HttpErrorMessage(if fetched.Raised? then fetched.message else "")))
  }

  /** `do_POST`: a fresh extractor per request. */
  method HandlePost(request: Request, service: CaptionService) returns (response: Response)
    ensures response == PostResponse(request, service)
  {
    match request
    case Unreadable(message) =>
      return Response(500, Failure(ServerErrorPrefix + message));
    case Body(url) =>
      if url.None? || url.value == [] {
        return Response(400, Failure(MissingUrlMessage));
      }
      var extractor := new Extractor();
      var ok := extractor.ProcessYoutubeUrl(url.value, service);
      if ok && extractor.formattedText != [] {
        var info := ReportedInfo(extractor.videoInfo, |extractor.transcriptData|);
        response := Response(200, Success(extractor.formattedText, info));
      } else {
        response := Response(400, Failure(HttpErrorMessage(extractor.errorDetails)));
      }
  }

  /** 200 goes with a non-empty text, 400 and 500 with a non-empty error; no other status is sent. */
  lemma PostStatusMatchesBody(request: Request, service: CaptionService)
    ensures var r := PostResponse(request, service);
      && (r.status == 200 || r.status == 400 || r.status == 500)
      && (r.status == 200 <==> r.body.Success?)
      && (r.body.Success? ==> Trimmed(r.body.text))
      && (r.body.Failure? ==> r.body.error != [])
  {
    var r := PostResponse(request, service);
    match request
    case Unreadable(m) =>
      assert r == Response(500, Failure(ServerErrorPrefix + m));
    case Body(url) =>
      if url.Some? && url.value != [] && ExtractLinkVideoId(url.value).Some? {
        var id := ExtractLinkVideoId(url.value).value;
        var fetched := Fetched(service);
        if Delivered(fetched) && SimpleFormat(fetched.value) != [] {
          SimpleFormatShape(fetched.value);
          assert r == Response(200, Success(SimpleFormat(fetched.value), ReportedInfo(PlaceholderInfo(id), |fetched.value|)));
        } else {
          assert r == Response(400, Failure(HttpErrorMessage(if fetched.Raised? then fetched.message else "")));
        }
      }
  }

  /** A successful answer reports the placeholder information and the number of cues fetched. */
  lemma PostSuccessReportsPlaceholder(url: string, service: CaptionService)
    requires PostResponse(Body(Some(url)), service).body.Success?
    ensures ExtractLinkVideoId(url).Some?
    ensures var info := PostResponse(Body(Some(url)), service).body.info;
      && info == Info(Some("YouTube Video " + ExtractLinkVideoId(url).value), Some("Unknown"), Some(0), |Fetched(service).value|)
      && info.subtitleCount > 0
  {
  }

  /** A link that is neither a watch nor a short link is refused with the invalid-URL message, unchanged by the classification. */
  lemma PostRefusesOtherLinks(url: string, service: CaptionService)
    requires url != []
    requires forall p: nat :: !MatchesAt(url, p, WatchMarker)
    requires forall p: nat :: !MatchesAt(url, p, ShortMarker)
    ensures PostResponse(Body(Some(url)), service) == Response(400, Failure(InvalidUrlMessage))
  {
    KoreanMessagesAreForeign();
    ForeignTextIsUnrecognized(InvalidUrlMessage);
  }

  /** When every caption request raises, the last exception's text is classified. */
  lemma PostClassifiesServiceFailure(url: string, service: CaptionService)
    requires ExtractLinkVideoId(url).Some?
    requires service.korean.Raised? && service.english.Raised? && service.anyLanguage.Raised?
    ensures PostResponse(Body(Some(url)), service) == Response(400, Failure(HttpErrorMessage(service.anyLanguage.message)))
  {
  }

  /** Cues that are all blank give the generic message, not an empty success. */
  lemma PostRejectsBlankCaptions(url: string, service: CaptionService)
    requires ExtractLinkVideoId(url).Some? && service.korean.Returned?
    requires forall i :: 0 <= i < |service.korean.value| ==> Strip(service.korean.value[i].text.GetOr("")) == []
    ensures PostResponse(Body(Some(url)), service) == Response(400, Failure(NoTranscriptMessage))
  {
    var fetched := Fetched(service);
    assert fetched == service.korean;
    SimpleFormatShape(fetched.value);
    assert SimpleFormat(fetched.value) == [];
    EmptyDetailsGiveGenericMessage();
  }
}
