/**
 * The JSON objects the two entry points answer with: `{"success": true,
 * "text": …, "info": {…}}` or `{"success": false, "error": …}`.
 */
module Envelopes {
  import opened Wrappers
  import opened Types

  /** The defaults the entry points read `video_info` with. */
  const MissingTitle := "제목 없음"
  const MissingChannel := "채널 없음"

  /** The `info` object of a successful answer; `None` is a JSON `null`. */
  datatype Info = Info(title: Option<string>, channel: Option<string>, duration: Option<int>, subtitleCount: nat)

  datatype Envelope =
    | Success(text: string, info: Info)
    | Failure(error: string)

  /** `video_info.get(key, default)` for the three keys, and the number of cues. */
  function ReportedInfo(v: VideoInfo, cueCount: nat): Info {
    Info(v.title.Get(MissingTitle), v.channel.Get(MissingChannel), v.duration.Get(0), cueCount)
  }
}
