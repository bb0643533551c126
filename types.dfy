/**
 * Values the three extractor classes share: caption tracks, the cue lists the
 * caption service returns, the outcome of a call into a third-party library,
 * the `video_info` dictionary and the record of outbound service calls.
 */
module Types {
  import opened Wrappers

  /** One caption track a video advertises: its language code and whether it is auto-generated. */
  datatype Track = Track(languageCode: string, isGenerated: bool)

  /** A fetched cue as the newer caption library returns it: an object whose `text` attribute always exists. */
  datatype Cue = Cue(text: string)

  /** A fetched cue as a dictionary: its `'text'` key may be missing. */
  datatype Entry = Entry(text: Option<string>)

  /**
   * A key of a Python dictionary: absent, present holding `None`, or present
   * holding a value.
   */
  datatype Slot<T> = Absent | Null | Holds(value: T) {
    /** `d.get(key, default)`: `default` for an absent key, `None` for a key holding `None`. */
    function Get(default: T): Option<T> {
      match this
      case Absent => Some(default)
      case Null => None
      case Holds(v) => Some(v)
    }
  }

  /** The key after `d[key] = x`, where `x` is a value or `None`: present, and read back as `x` whatever the default. */
  function Stored<T(!new)>(x: Option<T>): (r: Slot<T>)
    ensures !r.Absent?
    ensures forall d :: r.Get(d) == x
  {
    match x
    case None => Null
    case Some(v) => Holds(v)
  }

  /** What a call into a third-party library did: raised an exception whose `str()` is `message`, or returned `value`. */
  datatype CallOutcome<T> = Raised(message: string) | Returned(value: T)

  /** `len(outcome) > 0` on a returned list: the call delivered at least one cue. */
  predicate Delivered<T>(outcome: CallOutcome<seq<T>>) {
    outcome.Returned? && |outcome.value| > 0
  }

  /** The `video_info` dictionary, one slot per key the response envelopes read. */
  datatype VideoInfo = VideoInfo(
    title: Slot<string>,
    channel: Slot<string>,
    duration: Slot<int>,
    videoId: Slot<string>)

  /** The empty dictionary `{}` every extractor starts with. */
  const NoVideoInfo := VideoInfo(Absent, Absent, Absent, Absent)

  /** An outbound call to the caption or metadata service, in the order the extractor makes them. */
  datatype ServiceCall =
    | MetadataLookup(videoId: string)
    | ListTranscripts(videoId: string)
    | FetchTrack(track: Track, translatedTo: Option<string>)
    | GetTranscript(videoId: string, languages: Option<seq<string>>)
}
