# YouTube transcript extractor — a Dafny model

The repository turns a YouTube link into readable text. It has three copies
of one extractor class, `YouTubeTextExtractor`. Each copy resolves the link
to a video identifier, sets the video information, asks the caption service
for a transcript, and normalises the cue texts into paragraphs:

- `api/youtube_text_extractor.py`, the copy written for the React app. It
  accepts watch, short, embed and live links. It looks the video's metadata
  up, picks a caption track by a six-entry preference list, and fetches it.
  When a fetch raises, it tries a Korean translation and then the original
  track once more. Its normaliser cuts the text into sentences, one per
  paragraph.
- `youtube_text_extractor.py`, the stable copy that the command line drives.
  It looks a track up by language (`ko`, `en`, `en-US`, `en-GB`), then falls
  back to `en` and then to the first listed track. It uses the same sentence
  normaliser, and it skips cues that have no `'text'` key.
- `api/extract.py`, the serverless copy behind `do_POST`. It accepts only
  watch and short links. It asks for Korean, then English, then any
  language. It joins the stripped cue texts with single spaces.
  `do_POST` wraps the result in a JSON envelope. On failure, it maps the
  error text to a fixed Korean message by substring tests.
- `extract_api.py` is the command-line entry point. It takes exactly one
  argument and prints one envelope.

The model has one Dafny module per concern:

- `Text`: Python's `strip`, `in` on strings, `join` and `split`.
- `UrlResolver`: the two regular expressions, matched by hand.
  `re.search` is characterised as the leftmost match, with the
  first-listed alternative winning.
- `TrackPolicy`: the track preference loop, the fetch chain, and the
  lookup by language.
- `Normalizer`: what `format_transcript` computes, written as functions.
- `Formatting`: the loops of `format_transcript`, each proved against those
  functions.
- `ErrorMessages`: the classification chain of `do_POST` and `main`.
- `Envelopes`: the response envelope.

Each core file becomes one more module. Its class has the source's four
fields and a ghost trace of the calls made to outside services:

- `ReactExtractor` models `api/youtube_text_extractor.py`;
- `StableExtractor` models `youtube_text_extractor.py`;
- `ServerlessExtract` models `api/extract.py`;
- `CliEntry` models `extract_api.py`.

The network services are parameters. Every call to the caption library or
to yt_dlp is a `CallOutcome`: it either returns a value or raises with a
message.

## Model

| member | source | states |
|---|---|---|
| Text.StripShape | api/youtube_text_extractor.py:140 | the stripped text is the stretch of the input after its leading whitespace and before its trailing whitespace, keeps every character that is not whitespace in order, has no whitespace at either end, and is the input itself when the input has none there |
| Text.StripEmpty | api/youtube_text_extractor.py:140-141 | a stripped text is empty exactly when every character of the input is whitespace |
| Text.StripAvoids | api/youtube_text_extractor.py:140 | stripping adds no character |
| Text.TrimStart | api/youtube_text_extractor.py:144 | a greedy `\s+` run consumes only whitespace, and the rest is a suffix that does not start with whitespace |
| Text.IndexOf | api/youtube_text_extractor.py:161 | the position found holds the pattern, and no earlier position does |
| Text.SplitOnJoinWith | api/youtube_text_extractor.py:161 | joining parts with a separator whose first character none of them holds, then splitting on it, gives the parts back |
| UrlResolver.RunEnd | api/youtube_text_extractor.py:24 | `([^&\n?#]+)` is greedy: the run holds only identifier characters and stops at the end or at a non-identifier character |
| UrlResolver.FindMatch | api/youtube_text_extractor.py:29 | the match found is the leftmost one, and at its position the first-listed alternative that matches is used |
| UrlResolver.Search | api/youtube_text_extractor.py:29-31 | `re.search` finds nothing exactly when no alternative matches anywhere; otherwise group 1 is a non-empty identifier without `&`, newline, `?` or `#` |
| UrlResolver.SearchIsLeftmostRun | api/youtube_text_extractor.py:29-31 | group 1 is the greedy identifier run after the leftmost match |
| UrlResolver.ExtractVideoId | api/youtube_text_extractor.py:21-33 | the first pattern's group 1 when it matches, otherwise the live pattern's; the result is `None` exactly when neither pattern matches anywhere; an identifier returned is well-formed |
| UrlResolver.ShapesAgree | api/youtube_text_extractor.py:23-26 | `…youtube.com/watch?v=ID`, `…youtu.be/ID`, `…youtube.com/embed/ID` and `…youtube.com/live/ID` all resolve to `ID` |
| UrlResolver.NoMarkerNoId | youtube_text_extractor.py:18-30 | a URL without a `y` names no video in either resolver |
| UrlResolver.ExtractLinkVideoId | api/extract.py:30-33 | the result is `None` exactly when neither the watch nor the short form matches anywhere |
| UrlResolver.LinkShapes | api/extract.py:32 | watch and short links resolve to their identifier; embed and live links are refused |
| UrlResolver.LinkResolverAgrees | api/extract.py:32 | every link the serverless resolver accepts is accepted by the other one, and the two agree on links without embed or live forms |
| TrackPolicy.FirstFitting | api/youtube_text_extractor.py:80-84 | the inner loop finds the first listed track with the preferred language and generated flag |
| TrackPolicy.ChooseFrom | api/youtube_text_extractor.py:78-89 | the preference loop finds nothing exactly when no track fits any remaining preference |
| TrackPolicy.Preferred | api/youtube_text_extractor.py:75-101 | a track is chosen exactly when the listing is not empty |
| TrackPolicy.PreferenceOrderDecides | api/youtube_text_extractor.py:78-89 | the first track that fits the earliest fitting preference is chosen |
| TrackPolicy.ManualKoreanFirst | api/youtube_text_extractor.py:66-67 | a manual Korean track, when listed, is always the one chosen |
| TrackPolicy.NoFitTakesFirst | api/youtube_text_extractor.py:91-101 | when no track fits a preference, the first listed track is chosen |
| TrackPolicy.SelectTrack | api/youtube_text_extractor.py:75-101 | the nested loops with their breaks compute `Preferred` |
| TrackPolicy.Attempts | api/youtube_text_extractor.py:104-123 | one to three fetches, whose outcomes are in order those of the plain fetch, the Korean translation and the retry; each one after the first follows a fetch that raised; only the second is the Korean translation |
| TrackPolicy.SuccessIsSomeDelivery | api/youtube_text_extractor.py:104-125 | the chain succeeds exactly when some fetch delivered cues, and then cues are held |
| TrackPolicy.EmptyFirstFetchIsFinal | api/youtube_text_extractor.py:106-108 | a first fetch that returns no cues ends the chain with failure; no translation is tried |
| TrackPolicy.FirstFound | youtube_text_extractor.py:57-63 | the lookup loop finds the first language of `ko`, `en`, `en-US`, `en-GB` that the listing has |
| TrackPolicy.SecondEnglishLookupIsRedundant | youtube_text_extractor.py:66-76 | the fallback lookup of `en` never finds anything, so the first listed track is the only real fallback |
| TrackPolicy.LookupPrefersKorean | youtube_text_extractor.py:52-63 | a Korean track is always chosen when there is one; nothing is chosen exactly when no language is found and nothing is listed |
| TrackPolicy.LookupTrack | youtube_text_extractor.py:54-76 | the loop and its fallbacks compute `LookedUp` |
| Normalizer.ListedIsIn | api/youtube_text_extractor.py:141 | the recursive marker test is Python's `in` on the marker list |
| Normalizer.SquashNewlinesShape | api/youtube_text_extractor.py:143 | the result is the text split at its maximal newline runs and joined with one space (`' '.join(re.split(r'\n+', s))`, `Text.SplitRuns`); so no newline is left, a non-empty input gives a non-empty result, and every character other than a newline or a space is kept, in order |
| Normalizer.SquashNewlinesIdentity | api/youtube_text_extractor.py:143 | a text without newlines is unchanged |
| Normalizer.SquashSpacesShape | api/youtube_text_extractor.py:144 | the result is the text split at its maximal whitespace runs and joined with one space (`' '.join(re.split(r'\s+', s))`); so it holds only single plain spaces, keeps every character that is not whitespace in order, and starts and ends with whitespace exactly when the input does |
| Normalizer.SquashSpacesIdentity | api/youtube_text_extractor.py:144 | a single-spaced text is unchanged, and so is a text whose squash holds no whitespace |
| Normalizer.NewlineSquashIsRedundant | api/youtube_text_extractor.py:143-144 | the newline substitution before the whitespace substitution changes nothing in the result |
| Normalizer.SquashedIsNoMarker | api/youtube_text_extractor.py:141-144 | squashing cannot turn a kept text into a non-speech marker |
| Normalizer.CleanLine | api/youtube_text_extractor.py:140-145 | a cue is skipped exactly when its stripped text is empty or a non-speech marker |
| Normalizer.CleanLineTidy | api/youtube_text_extractor.py:140-145 | a kept line is the stripped cue text's whitespace-separated words joined by single spaces; it is non-empty, has no whitespace at either end, and keeps every character of the cue text that is not whitespace, in order |
| Normalizer.CleanLinesTidy | api/youtube_text_extractor.py:139-145 | every line of the first loop is tidy |
| Normalizer.CleanLinesHaveNoMarker | api/youtube_text_extractor.py:139-145 | no line of the first loop is a non-speech marker |
| Normalizer.CleanLinesEmpty | api/youtube_text_extractor.py:139-145 | the first loop keeps nothing exactly when every cue is blank or a marker |
| Normalizer.CleanLinesAppend | api/youtube_text_extractor.py:139-145 | cleaning a concatenation cleans each part |
| Normalizer.FirstBreak | api/youtube_text_extractor.py:151 | the cut found is a terminator followed by whitespace, and there is none earlier |
| Normalizer.SplitSentencesWhole | api/youtube_text_extractor.py:151 | the text is one piece exactly when it holds no terminator followed by whitespace |
| Normalizer.SplitSentencesPieces | api/youtube_text_extractor.py:151 | the pieces with the dropped gaps put back between them spell the text; every gap is a terminator and a whole whitespace run; no piece holds a cut; every piece after the first starts after its gap's whitespace run |
| Normalizer.SplitSentencesAvoids | api/youtube_text_extractor.py:151 | cutting adds no character |
| Normalizer.FinishSentence | api/youtube_text_extractor.py:155-159 | a piece is dropped exactly when it is at most three characters once stripped; a kept one is the stripped piece, with a full stop added when it does not end in a terminator |
| Normalizer.FinishSentencesEmpty | api/youtube_text_extractor.py:154-159 | no sentence survives exactly when every piece is short |
| Normalizer.FinishSentencesAvoid | api/youtube_text_extractor.py:154-159 | finishing adds no character other than `.` |
| Normalizer.SentencesShape | api/youtube_text_extractor.py:137-161 | every sentence is longer than three characters, ends in `.`, `!` or `?`, and holds no newline |
| Normalizer.NormalizeSplitsIntoSentences | api/youtube_text_extractor.py:161 | the formatted text is empty exactly when there are no sentences, and splitting it at blank lines gives the sentences back |
| Normalizer.SilentCuesGiveNothing | api/youtube_text_extractor.py:137-161 | cues that are all blank or markers give the empty text |
| Normalizer.KeptTexts | api/extract.py:70-74 | every kept text is non-empty with no whitespace at either end |
| Normalizer.KeptTextsEmpty | api/extract.py:70-74 | nothing is kept exactly when every cue is blank or has no text |
| Normalizer.JoinTrimmed | api/extract.py:76 | joining trimmed parts with spaces gives a trimmed text, and a non-empty one when there are parts |
| Normalizer.SimpleFormatShape | api/extract.py:65-77 | the joined text is empty exactly when every cue is blank, and has no whitespace at either end |
| Formatting.PresentTexts | youtube_text_extractor.py:100-109 | a cue list in which every cue lacks `'text'` gives no text |
| Formatting.SkippingIsBlanking | youtube_text_extractor.py:100-109 | skipping a cue without `'text'` keeps the same lines as reading it as a blank cue |
| Formatting.MissingTextIsBlank | youtube_text_extractor.py:93-126 | a missing text and a blank one give the same formatted text |
| Formatting.CleanTexts | api/youtube_text_extractor.py:137-145 | the first loop computes `CleanLines` |
| Formatting.FinishPiece | api/youtube_text_extractor.py:155-159 | the second loop's body computes `FinishSentence` |
| Formatting.FinishPieces | api/youtube_text_extractor.py:152-159 | the second loop computes `FinishSentences` |
| Formatting.FormatLines | api/youtube_text_extractor.py:137-161 | the whole `format_transcript` computes `Normalize` |
| Formatting.JoinKeptTexts | api/extract.py:70-76 | the loop of the serverless `format_transcript` computes `SimpleFormat` |
| ErrorMessages.FirstFiring | api/extract.py:138-150 | the kind found is that of a rule that fires, and nothing is recognised exactly when no rule fires |
| ErrorMessages.ClassifyIsFirstMatch | api/extract.py:138-150 | the nested `if`/`elif` chain is the flat first-match rule list |
| ErrorMessages.ForeignTextIsUnrecognized | api/extract.py:138-150 | a text holding none of the first letters of the English fragments is not recognised |
| ErrorMessages.KindMessage | api/extract.py:139-150 | each recognised kind has a non-empty message that itself holds no English fragment |
| ErrorMessages.KindMessagesDiffer | api/extract.py:139-150 | different kinds have different messages |
| ErrorMessages.HttpErrorMessage | api/extract.py:135-150 | an unrecognised error is passed through unchanged, a recognised one gets its kind's message, and the message is never empty |
| ErrorMessages.EmptyDetailsGiveGenericMessage | api/extract.py:135 | with no error recorded the generic message is shown |
| ErrorMessages.HttpErrorMessageIsStable | api/extract.py:135-150 | mapping a message a second time changes nothing |
| ErrorMessages.CliErrorMessage | extract_api.py:60-77 | an unrecognised error gets the prefix, and a recognised one gets its kind's message |
| ErrorMessages.HandlersAgreeOnRecognized | extract_api.py:63-77 | the two handlers agree on a non-empty error exactly when it is recognised |
| ReactExtractor.LookedUpInfo | api/youtube_text_extractor.py:35-57 | after a lookup that returned, each of title, channel and duration is the answer's value when it has one, `None` when the answer holds `None`, and the default (`'제목 없음'`, `'채널 없음'`, `0`) when the answer lacks the key; after a lookup that raised, title and channel are `'정보 없음'` and the duration is absent; the identifier is always set |
| ReactExtractor.ChosenTrack | api/youtube_text_extractor.py:63-101 | a track is fetched exactly when the listing returned a non-empty list |
| ReactExtractor.Extractor.constructor | api/youtube_text_extractor.py:14-19 | a new extractor has empty information, no cues, no text, no error and has made no call |
| ReactExtractor.Extractor.GetVideoInfo | api/youtube_text_extractor.py:35-57 | sets `LookedUpInfo`, records the metadata lookup, and changes nothing else |
| ReactExtractor.Extractor.FetchChosen | api/youtube_text_extractor.py:104-123 | succeeds exactly when the chain delivers cues; holds the last cues returned; records one fetch per attempt, where the translated attempt's entry stands for `translate('ko')` then `fetch()` and is recorded even when `translate` raises |
| ReactExtractor.Extractor.ExtractTranscript | api/youtube_text_extractor.py:59-130 | succeeds exactly when a track is chosen and the chain delivers cues; the error is recorded only when the listing raises |
| ReactExtractor.Extractor.FormatTranscript | api/youtube_text_extractor.py:132-162 | with cues, the stored and returned text is `Normalize` of the cue texts; without cues, nothing changes |
| ReactExtractor.Extractor.ProcessYoutubeUrl | api/youtube_text_extractor.py:164-184 | a URL naming no video changes nothing and records no error; otherwise the information, cues, error, text and calls are those of the three steps |
| ReactExtractor.SuccessDeliversCues | api/youtube_text_extractor.py:104-123 | a successful extraction holds at least one cue |
| StableExtractor.Extracted | youtube_text_extractor.py:79-87 | cues are extracted exactly when a track is chosen and its fetch returns a non-empty list |
| StableExtractor.ExtractionCalls | youtube_text_extractor.py:45-91 | the listing is always called, and one fetch follows exactly when a track is chosen |
| StableExtractor.Extractor.constructor | youtube_text_extractor.py:12-16 | a new extractor has empty information, no cues, no text, no error and has made no call |
| StableExtractor.Extractor.GetVideoInfo | youtube_text_extractor.py:32-43 | sets the placeholder information and changes nothing else |
| StableExtractor.Extractor.ExtractTranscript | youtube_text_extractor.py:45-91 | succeeds exactly when cues are extracted; the cue list is replaced whenever the fetch returns; the prefixed error is recorded when a call raises |
| StableExtractor.Extractor.FormatTranscript | youtube_text_extractor.py:93-126 | with cues, the stored and returned text is `Normalize` of the present texts; without cues, nothing changes |
| StableExtractor.Extractor.ProcessYoutubeUrl | youtube_text_extractor.py:128-150 | a URL naming no video records the invalid-URL error and changes nothing else; otherwise the fields are those of the three steps |
| ServerlessExtract.Fetched | api/extract.py:46-56 | the chain returns when any call returns; the Korean answer when it returns, else the English one when it returns, else the any-language call's outcome, exception included |
| ServerlessExtract.TranscriptRequests | api/extract.py:48-56 | the requests ask in order for Korean, English and any language; one request exactly when Korean returns, three exactly when Korean and English raise |
| ServerlessExtract.Extractor.constructor | api/extract.py:24-28 | a new extractor has empty information, no cues, no text, no error and has made no call |
| ServerlessExtract.Extractor.GetVideoInfo | api/extract.py:35-42 | sets the placeholder information and changes nothing else |
| ServerlessExtract.Extractor.ExtractTranscript | api/extract.py:44-63 | succeeds exactly when the chain delivers cues; holds what it returned, or records the exception |
| ServerlessExtract.Extractor.FormatTranscript | api/extract.py:65-77 | with cues, the stored and returned text is `SimpleFormat`; without cues, nothing changes |
| ServerlessExtract.Extractor.ProcessYoutubeUrl | api/extract.py:79-97 | a link the resolver refuses records the invalid-URL error; otherwise the fields are those of the three steps |
| ServerlessExtract.HandlePost | api/extract.py:101-169 | `do_POST` with a fresh extractor answers `PostResponse` |
| ServerlessExtract.PostStatusMatchesBody | api/extract.py:101-169 | the status is 200, 400 or 500; it is 200 exactly on success; a success carries trimmed text; a failure carries a non-empty error |
| ServerlessExtract.PostSuccessReportsPlaceholder | api/extract.py:122-133 | a success reports the placeholder title and channel, a duration of 0, and a positive cue count |
| ServerlessExtract.PostRefusesOtherLinks | api/extract.py:82-85 | a non-empty URL without a watch or short form is answered 400 with the invalid-URL message |
| ServerlessExtract.PostClassifiesServiceFailure | api/extract.py:134-156 | when every request raises, the last exception is classified |
| ServerlessExtract.PostRejectsBlankCaptions | api/extract.py:122-135 | Korean cues that are all blank give 400 with the generic message |
| CliEntry.RunCli | extract_api.py:22-93 | `main` with a fresh extractor gives `CliOutcome` |
| CliEntry.CliFailuresAreFixed | extract_api.py:23-57 | the exit status is 1 exactly when the argument count is wrong, and every failure carries one of two fixed messages |
| CliEntry.CliSuccessIsSentences | extract_api.py:40-51 | a success prints the sentences as paragraphs, each longer than three characters and ending in a terminator, with the placeholder information and a positive cue count |
| NormalizerExamples.SinglePlainCue | api/youtube_text_extractor.py:132-162 | a single plain cue longer than three characters becomes itself with a full stop |
| NormalizerExamples.SingleCueGetsFullStop | api/youtube_text_extractor.py:157-158 | `"This is a test"` becomes `"This is a test."` |
| NormalizerExamples.BlankBetweenPlainCues | api/youtube_text_extractor.py:139-151 | a blank cue between two plain cues ends no sentence |
| NormalizerExamples.BlankCueDoesNotSplit | api/youtube_text_extractor.py:139-151 | `"Hello world"`, `""`, `"Goodbye"` give the one sentence `"Hello world Goodbye."` |
| NormalizerExamples.RenormalizingCanDropSentence | api/youtube_text_extractor.py:151-159 | formatting the formatted text again can drop a four-character sentence |
| NormalizerExamples.YesThanksLosesYes | api/youtube_text_extractor.py:151-159 | `"Yes!! Thanks"` formats as `"Yes!"` and `"Thanks."`, and formatting that again leaves only `"Thanks."` |

## Behaviour of the code worth knowing

- The cues `"Hello world"`, `""`, `"Goodbye"` give one sentence,
  `"Hello world Goodbye."`, not two. The code joins the kept cues with spaces
  before it cuts at a terminator followed by whitespace, so a blank cue ends
  no sentence (`NormalizerExamples.BlankCueDoesNotSplit`).
- Normalising is not idempotent. A four-character sentence ending in `!`
  loses its terminator when the text is normalised again, and is then
  dropped (`NormalizerExamples.YesThanksLosesYes`).
- The React copy tries the Korean translation whenever the first fetch
  raises, whether or not the track is translatable. When that raises too, it
  fetches the original once more (`TrackPolicy.Attempts`).
- `format_transcript` returns early on an empty cue list without setting
  `formatted_text`, so the previous value is kept (`FormatTranscript` in
  each class).
- The exception branch of `main` in `extract_api.py` is never taken,
  because the stable `process_youtube_url` catches every exception.
  `ErrorMessages.CliErrorMessage` models that branch. `CliEntry.RunCli`
  never reaches it, and `CliEntry.CliFailuresAreFixed` states this.

## Left out

- The yt_dlp metadata lookup is a parameter: it either raises or returns an
  answer whose title, uploader and duration keys are each absent, `None` or a
  value. The `view_count`, `upload_date` and
  `description` keys are not modelled, because no envelope reports them.
- The caption library is a parameter: a listing, a lookup map, and fetch
  outcomes fixed in advance.
  - In the stable copy, one fetch outcome stands for the fetch of whichever
    track was chosen.
  - In the React copy, the three fetch outcomes do not depend on the track.
  - `find_transcript` is the `found` map. A language missing from the map
    stands for the exception the library raises.
- HTTP framing, the headers, `do_OPTIONS`, and reading and parsing the
  request body are not modelled. `ServerlessExtract.Request.Unreadable`
  stands for any exception raised while reading the request, which leads to
  the 500 answer.
- A `url` value that is not a string, or a cue `text` that is not a string,
  is not modelled. The model's types allow only strings.
- Each copy is modelled with the cue shape its `format_transcript` reads.
  The React copy reads the `text` attribute of cue objects
  (`Types.Cue`, api/youtube_text_extractor.py:140). The stable copy reads
  `entry['text']` of dictionaries inside a `try`, and skips a cue without
  that key (`Types.Entry`, youtube_text_extractor.py:102). The serverless
  copy reads `entry.get('text', '')` of dictionaries, so a missing key is an
  empty text (`Types.Entry`, api/extract.py:72). Cue objects handed to the
  serverless copy would raise at api/extract.py:72 and end in the `except`
  of its `process_youtube_url` (api/extract.py:95-97). That path is not
  modelled.
- Writing the JSON to stdout, the exit itself, and the `"JSON encoding
  error"` fallback of `extract_api.py` are left out: encoding a string
  envelope does not fail in the model.
- The `use_speech_recognition` flag is left out. It is set but never read.
- Cue start times and durations are left out; the normaliser reads only the
  text.
- The branches that catch an exception the code inside them cannot raise,
  given the cue shapes above, are left out. These are the `except` clauses
  around the iteration of the track list in the React copy, the `except` of
  `get_video_info` in the stable copy, and the `except` of
  `process_youtube_url` in the stable and serverless copies. The serverless
  `get_video_info` has no `except`.
- The user-interface files (`pages/`, `streamlit_app.py`) and the test
  scripts are not part of this model.
- `main` functions that only run a sample link are not part of this model.
