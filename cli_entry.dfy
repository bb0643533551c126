/**
 * extract_api.py: the command-line entry point. It takes the video URL as its
 * one argument, runs the stable extractor, and prints one JSON envelope.
 */
module CliEntry {
  import opened Wrappers
  import opened Text
  import opened Normalizer
  import opened Formatting
  import opened UrlResolver
  import opened Envelopes
  import opened StableExtractor

  const UsageMessage := "URL 매개변수가 필요합니다"
  const ExtractionFailedMessage := "자막을 추출할 수 없습니다. 비디오가 비공개이거나 자막이 없을 수 있습니다."

  /** The envelope printed and the process exit status. */
  datatype Outcome = Outcome(output: Envelope, exitCode: int)

  /** What `main` prints and how it exits, for the argument vector (script name first) and the caption service. */
  function CliOutcome(argv: seq<string>, service: CaptionService): Outcome {
    if |argv| != 2 then Outcome(Failure(UsageMessage), 1)
    else match ExtractVideoId(argv[1])
      case None => Outcome(Failure(ExtractionFailedMessage), 0)
      case Some(id) =>
        match Extracted(service)
        case None => Outcome(Failure(ExtractionFailedMessage), 0)
        case Some(data) =>
          var text := Normalize(PresentTexts(data));
          if text == [] then Outcome(Failure(ExtractionFailedMessage), 0)
          else Outcome(Success(text, ReportedInfo(PlaceholderInfo(id), |data|)), 0)
  }

  /** `main`: a fresh extractor for the one argument. */
  method RunCli(argv: seq<string>, service: CaptionService) returns (outcome: Outcome)
    ensures outcome == CliOutcome(argv, service)
  {
    if |argv| != 2 {
      return Outcome(Failure(UsageMessage), 1);
    }
    var url := argv[1];
    var extractor := new Extractor();
    var resultFile := extractor.ProcessYoutubeUrl(url, service);
    if resultFile && extractor.formattedText != [] {
      var info := ReportedInfo(extractor.videoInfo, |extractor.transcriptData|);
      outcome := Outcome(Success(extractor.formattedText, info), 0);
    } else {
      outcome := Outcome(Failure(ExtractionFailedMessage), 0);
    }
  }

  /**
   * The exit status is 1 exactly when the argument count is wrong, and every
   * failure carries one of two fixed messages: the extractor never raises,
   * so the classifying exception branch of `main` is never taken.
   */
  lemma CliFailuresAreFixed(argv: seq<string>, service: CaptionService)
    ensures var o := CliOutcome(argv, service);
      && (o.exitCode == 1 <==> |argv| != 2)
      && (o.exitCode == 0 || o.exitCode == 1)
      && (o.output.Failure? ==> o.output.error == UsageMessage || o.output.error == ExtractionFailedMessage)
      && (o.exitCode == 1 ==> o.output == Failure(UsageMessage))
  {
  }

  /**
   * A successful run prints the normalised text, whose paragraphs are the
   * sentences of the cues, each longer than three characters and ending in a
   * terminator, with the placeholder information and the number of cues.
   */
  lemma CliSuccessIsSentences(argv: seq<string>, service: CaptionService)
    requires CliOutcome(argv, service).output.Success?
    ensures |argv| == 2 && ExtractVideoId(argv[1]).Some? && Extracted(service).Some?
    ensures var o := CliOutcome(argv, service).output;
      var texts := PresentTexts(Extracted(service).value);
      && o.text != []
      && SplitOn(o.text, "\n\n") == Sentences(texts)
      && (forall k :: 0 <= k < |Sentences(texts)| ==> |Sentences(texts)[k]| > 3)
      && (forall k :: 0 <= k < |Sentences(texts)| ==> IsTerminator(Sentences(texts)[k][|Sentences(texts)[k]| - 1]))
      && o.info == Info(Some("Video " + ExtractVideoId(argv[1]).value), Some("정보 없음"), Some(0), |Extracted(service).value|)
      && o.info.subtitleCount > 0
  {
    var texts := PresentTexts(Extracted(service).value);
    NormalizeSplitsIntoSentences(texts);
    SentencesShape(texts);
  }
}
