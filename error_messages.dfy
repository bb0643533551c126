/**
 * How api/extract.py (`do_POST`) and extract_api.py (`main`) turn the text
 * of a failure into the message shown to the user: a chain of substring
 * tests on English fragments of the caption library's messages, each mapped
 * to a fixed Korean sentence.
 */
module ErrorMessages {
  import opened Text

  const UnavailableSignal := "Video unavailable"
  const PrivateSignal := "Private video"
  const NotRetrievedSignal := "Could not retrieve a transcript"
  const DisabledSignal := "Subtitles are disabled"
  const NoTranscriptsSignal := "No transcripts found"
  const ConnectionSignal := "Connection"
  const NetworkSignal := "Network"

  /** What the substring tests recognise in a failure text. */
  datatype ErrorKind =
    | VideoUnavailable
    | PrivateVideo
    | SubtitlesDisabled
    | NoTranscripts
    | TranscriptBlocked
    | NetworkFailure
    | Unrecognized

  /** The `if`/`elif` chain of the handlers, as written: the third test holds a nested chain of its own. */
  function Classify(msg: string): ErrorKind {
    if Contains(msg, UnavailableSignal) then VideoUnavailable
    else if Contains(msg, PrivateSignal) then PrivateVideo
    else if Contains(msg, NotRetrievedSignal) then
      (if Contains(msg, DisabledSignal) then SubtitlesDisabled
       else if Contains(msg, NoTranscriptsSignal) then NoTranscripts
       else TranscriptBlocked)
    else if Contains(msg, ConnectionSignal) || Contains(msg, NetworkSignal) then NetworkFailure
    else Unrecognized
  }

  /** A flat rule: the kind it gives when every one of its fragments occurs. */
  datatype Rule = Rule(fragments: seq<string>, kind: ErrorKind)

  /** The same tests as one flat list in which the first rule that fires wins. */
  const Rules: seq<Rule> := [
    Rule([UnavailableSignal], VideoUnavailable),
    Rule([PrivateSignal], PrivateVideo),
    Rule([NotRetrievedSignal, DisabledSignal], SubtitlesDisabled),
    Rule([NotRetrievedSignal, NoTranscriptsSignal], NoTranscripts),
    Rule([NotRetrievedSignal], TranscriptBlocked),
    Rule([ConnectionSignal], NetworkFailure),
    Rule([NetworkSignal], NetworkFailure)
  ]

  predicate Fires(msg: string, rule: Rule) {
    forall k :: 0 <= k < |rule.fragments| ==> Contains(msg, rule.fragments[k])
  }

  /** The kind of the first rule from the `k`-th on that fires. */
  function FirstFiring(msg: string, k: nat): (r: ErrorKind)
    requires k <= |Rules|
    ensures r != Unrecognized ==> exists j :: k <= j < |Rules| && Fires(msg, Rules[j]) && Rules[j].kind == r
    ensures r == Unrecognized <==> forall j :: k <= j < |Rules| ==> !Fires(msg, Rules[j])
    decreases |Rules| - k
  {
    if k == |Rules| then Unrecognized
    else if Fires(msg, Rules[k]) then Rules[k].kind
    else FirstFiring(msg, k + 1)
  }

  lemma FiresOne(msg: string, a: string, kind: ErrorKind)
    ensures Fires(msg, Rule([a], kind)) == Contains(msg, a)
  {
    var r := Rule([a], kind);
    if Contains(msg, a) {
      forall k | 0 <= k < |r.fragments| ensures Contains(msg, r.fragments[k]) {
        assert r.fragments[k] == a;
      }
    } else {
      assert !Contains(msg, r.fragments[0]);
    }
  }

  lemma FiresTwo(msg: string, a: string, b: string, kind: ErrorKind)
    ensures Fires(msg, Rule([a, b], kind)) == (Contains(msg, a) && Contains(msg, b))
  {
    var r := Rule([a, b], kind);
    if Contains(msg, a) && Contains(msg, b) {
      forall k | 0 <= k < |r.fragments| ensures Contains(msg, r.fragments[k]) {
        assert r.fragments[k] == a || r.fragments[k] == b;
      }
    } else {
      assert !Contains(msg, r.fragments[0]) || !Contains(msg, r.fragments[1]);
    }
  }

  /** The nested chain is the flat first-match list: the order of the tests is a precedence. */
  lemma ClassifyIsFirstMatch(msg: string)
    ensures Classify(msg) == FirstFiring(msg, 0)
  {
    FiresOne(msg, UnavailableSignal, VideoUnavailable);
    FiresOne(msg, PrivateSignal, PrivateVideo);
    FiresTwo(msg, NotRetrievedSignal, DisabledSignal, SubtitlesDisabled);
    FiresTwo(msg, NotRetrievedSignal, NoTranscriptsSignal, NoTranscripts);
    FiresOne(msg, NotRetrievedSignal, TranscriptBlocked);
    FiresOne(msg, ConnectionSignal, NetworkFailure);
    FiresOne(msg, NetworkSignal, NetworkFailure);
  }

  /** The first letters of the fragments the tests look for. */
  predicate SignalInitial(c: char) {
    c == 'V' || c == 'P' || c == 'C' || c == 'N'
  }

  /** A text holding none of the fragments' first letters, such as one written in Hangul. */
  predicate Foreign(msg: string) {
    forall i :: 0 <= i < |msg| ==> !SignalInitial(msg[i])
  }

  /** A text holding none of the fragments' first letters is not recognised. */
  lemma {:induction false} ForeignTextIsUnrecognized(msg: string)
    requires Foreign(msg)
    ensures Classify(msg) == Unrecognized
  {
    AbsentFirstChar(msg, UnavailableSignal);
    AbsentFirstChar(msg, PrivateSignal);
    AbsentFirstChar(msg, NotRetrievedSignal);
    AbsentFirstChar(msg, ConnectionSignal);
    AbsentFirstChar(msg, NetworkSignal);
  }

  const UnavailableMessage := "비디오를 사용할 수 없습니다. 삭제되었거나 비공개일 수 있습니다."
  const PrivateMessage := "비공개 비디오입니다."
  const DisabledMessage := "이 비디오는 자막이 비활성화되어 있습니다."
  const NoTranscriptsMessage := "이 비디오에는 자막이 없습니다."
  const BlockedMessage := "자막을 가져올 수 없습니다. 비디오가 제한되어 있을 수 있습니다."
  const NetworkMessage := "네트워크 연결 문제가 발생했습니다. 잠시 후 다시 시도해주세요."

  /** What the extractors record when the URL names no video. */
  const InvalidUrlMessage := "올바른 유튜브 URL이 아닙니다"

  /** The message `do_POST` falls back on when the extractor recorded no error. */
  const NoTranscriptMessage := "자막을 추출할 수 없습니다"
  /** The prefix `main` of extract_api.py puts before a text it does not recognise. */
  const CliErrorPrefix := "오류가 발생했습니다: "

  /** The Korean sentences hold none of the fragments' first letters. */
  lemma KoreanMessagesAreForeign()
    ensures Foreign(UnavailableMessage) && Foreign(PrivateMessage) && Foreign(DisabledMessage)
    ensures Foreign(NoTranscriptsMessage) && Foreign(BlockedMessage) && Foreign(NetworkMessage)
    ensures Foreign(NoTranscriptMessage) && Foreign(InvalidUrlMessage)
  {
  }

  /** The Korean sentence for a recognised kind. */
  function KindMessage(kind: ErrorKind): (m: string)
    requires kind != Unrecognized
    ensures m != []
    ensures Foreign(m)
  {
    match kind
    case VideoUnavailable => KoreanMessagesAreForeign(); UnavailableMessage
    case PrivateVideo => KoreanMessagesAreForeign(); PrivateMessage
    case SubtitlesDisabled => KoreanMessagesAreForeign(); DisabledMessage
    case NoTranscripts => KoreanMessagesAreForeign(); NoTranscriptsMessage
    case TranscriptBlocked => KoreanMessagesAreForeign(); BlockedMessage
    case NetworkFailure => KoreanMessagesAreForeign(); NetworkMessage
  }

  /** Each recognised kind has a sentence of its own. */
  lemma KindMessagesDiffer(a: ErrorKind, b: ErrorKind)
    requires a != Unrecognized && b != Unrecognized && a != b
    ensures KindMessage(a) != KindMessage(b)
  {
    var ma, mb := KindMessage(a), KindMessage(b);
    if |ma| == |mb| {
      assert ma[1] != mb[1] || ma[2] != mb[2] || ma[3] != mb[3];
    }
  }

  /** The `error` of `do_POST`'s 400 response for the extractor's `error_details`. */
  function HttpErrorMessage(details: string): (m: string)
    ensures m != []
    ensures Classify(details) == Unrecognized && details != [] ==> m == details
    ensures Classify(details) != Unrecognized && details != [] ==> m == KindMessage(Classify(details))
  {
    var msg := if details == [] then NoTranscriptMessage else details;
    KoreanMessagesAreForeign();
    ForeignTextIsUnrecognized(NoTranscriptMessage);
    var kind := Classify(msg);
    if kind == Unrecognized then msg else KindMessage(kind)
  }

  /** With no error recorded, the generic message is shown. */
  lemma EmptyDetailsGiveGenericMessage()
    ensures HttpErrorMessage("") == NoTranscriptMessage
  {
    KoreanMessagesAreForeign();
    ForeignTextIsUnrecognized(NoTranscriptMessage);
  }

  /** Mapping a message a second time changes nothing: the Korean sentences hold no English fragment. */
  lemma HttpErrorMessageIsStable(details: string)
    ensures HttpErrorMessage(HttpErrorMessage(details)) == HttpErrorMessage(details)
  {
    var m := HttpErrorMessage(details);
    if Classify(m) != Unrecognized {
      if details == [] {
        KoreanMessagesAreForeign();
        ForeignTextIsUnrecognized(NoTranscriptMessage);
      } else {
        ForeignTextIsUnrecognized(KindMessage(Classify(details)));
      }
    }
  }

  /** The `error` of `main`'s exception branch in extract_api.py: an unrecognised text gets a prefix. */
  function CliErrorMessage(msg: string): (m: string)
    ensures Classify(msg) == Unrecognized ==> m == CliErrorPrefix + msg
    ensures Classify(msg) != Unrecognized ==> m == KindMessage(Classify(msg))
  {
    var kind := Classify(msg);
    if kind == Unrecognized then CliErrorPrefix + msg else KindMessage(kind)
  }

  /** The two handlers agree on every recognised non-empty text and differ on every unrecognised one. */
  lemma HandlersAgreeOnRecognized(msg: string)
    requires msg != []
    ensures Classify(msg) != Unrecognized <==> CliErrorMessage(msg) == HttpErrorMessage(msg)
  {
    if Classify(msg) == Unrecognized {
      assert |CliErrorMessage(msg)| > |msg|;
    }
  }
}
