# YoSaver bot: link check, duration formatting and message handling in Dafny

This project models the decision logic of the YoSaver Telegram bot (`yosaver.py`),
which takes a YouTube link from a chat, picks a progressive stream, downloads it
to a temporary file and sends the file back to the chat. Three pieces are modelled:

- **`is_valid_youtube_url`** (module `UrlValidator`, `url.dfy`). The fixed pattern of
  yosaver.py:37 is applied with `re.match`, which is anchored at the start only.
  `Matches` states the pattern's language as a decomposition of the text into scheme,
  `www.`, host, top-level domain, path prefix and 11-character id (`Parts`, `Render`),
  and accepts a text when some prefix of it is such a rendering. `SchemeThen` is an
  executable matcher, one predicate per group of the pattern. It is proved equal to
  `Matches` in both directions, and `IsValidYouTubeUrl` is that matcher with the
  equality as its contract.
- **`format_duration`** (module `Duration`, `duration.dfy`, using the decimal rendering
  in `Decimal`, `decimal.dfy`). It splits a number of seconds into hours, minutes and
  seconds and renders `H:MM:SS` or `M:SS`. The rendering is read back by
  `ParseDuration`, an independent parser over the `:`-separated fields.
- **`handle_message`** (module `Handler`, `handler.dfy`, using `Strip` in `Whitespace`,
  `whitespace.dfy`). The pure function `Handle` gives the effect of one message on the
  bot's `State`: the replies sent to the chat, the files on disk, the delivered videos
  and the external operations invoked. The class `Bot` performs the same steps one
  side effect at a time, as the Python coroutine does. Its `HandleMessage` is proved to
  have exactly the effect `Handle` describes. `Handle` strips the text, runs the link
  check and passes its verdict to `Respond`; the lemmas about one message are stated for
  `Respond` and any verdict. The libraries' answers are inputs
  (`World`): the video-info lookup, the stream query, whether the download raises (and
  whether it left a partial file), and whether opening and sending the file raises.

Three details of the code shape the model:

- `os.remove` (yosaver.py:108) is the last statement of the `try` block, not in a
  `finally`. It runs only after a successful send. When the download or the send
  raises, `video_<itag>.mp4` stays on disk (`SendFailureLeavesFile`,
  `DownloadFailureKeepsPartialFile`).
- The temporary file is named only by the stream's itag, `video_<itag>.mp4`
  (yosaver.py:93). Two streams with different itags never share a name
  (`TempFileNameInjective`).
- In the pattern's `.+\?v=` alternative, `.` does not match a newline, because no
  DOTALL flag is given. The model keeps this: the text before `?v=` must be free of
  `\n`.

## Model

| member | source | states |
|---|---|---|
| `UrlValidator.IsValidYouTubeUrl` | yosaver.py:35-38 | a text is accepted exactly when some prefix of it is a well-formed scheme/www/host/tld/path/id rendering of the pattern |
| `UrlValidator.CheckerIsMatches` | yosaver.py:37-38 | the stage-by-stage matcher accepts a text exactly when some prefix of it is the pattern's scheme/www/host/tld/path/id decomposition |
| `UrlValidator.CheckerSound` | yosaver.py:37-38 | every text the matcher accepts starts with a well-formed rendering of the pattern's parts |
| `UrlValidator.CheckerComplete` | yosaver.py:37-38 | every text starting with a well-formed rendering is accepted |
| `UrlValidator.ValidExtends` | yosaver.py:38 | anchoring at the start only: if `s` is accepted, so is `s + t` for any `t` |
| `UrlValidator.ValidIsLong` | yosaver.py:37 | an accepted text has at least 20 characters (`youtu.be/` plus an 11-character id) |
| `UrlValidator.EmptyRejected` | yosaver.py:37-38 | the empty text is rejected |
| `UrlValidator.WatchLinkAccepted` | yosaver.py:37 | `https://www.youtube.com/watch?v=` followed by any 11 characters outside `&=%\?` is accepted |
| `UrlValidator.WatchLinkShortIdRejected` | yosaver.py:37 | the same link with a 10-character id and nothing after it is rejected |
| `UrlValidator.UpperCaseHostRejected` | yosaver.py:37 | matching is case-sensitive: `https://www.YouTube.com/...` is rejected whatever follows |
| `UrlValidator.QueryFromWitness` | yosaver.py:37 | where the `.+\?v=` alternative matches, a `?v=` and an 11-character id lie inside the text |
| `Decimal.Digits` | yosaver.py:61 | the decimal rendering is non-empty, all digits, has no leading zero, and is one digit exactly for values below 10 |
| `Decimal.ParseDigits` | yosaver.py:61 | parsing a rendered number gives the number back |
| `Decimal.DigitsInjective` | yosaver.py:93 | different numbers render differently |
| `Duration.Split` | yosaver.py:58-60 | `hours*3600 + minutes*60 + secs == seconds` with `minutes < 60` and `secs < 60` |
| `Duration.TwoDigits` | yosaver.py:61 | the `:02d` field is exactly two digits and reads back as the value |
| `Duration.FormatDuration` | yosaver.py:56-61 | parsing the rendered text back as `M:SS` or `H:MM:SS` gives the original number of seconds |
| `Duration.FormatFields` | yosaver.py:61 | the rendered fields are hours, padded minutes and padded seconds when `seconds >= 3600`, else unpadded minutes and padded seconds |
| `Duration.FormatShape` | yosaver.py:56-61 | three fields exactly when `seconds >= 3600`, two otherwise; every field after the first has two digits; the first has no leading zero unless it is `0` |
| `Duration.FormatZero` | yosaver.py:61 | 0 seconds renders as `0:00` |
| `Whitespace.Strip` | yosaver.py:66 | the result is the input with its leading and trailing whitespace removed, and neither starts nor ends with whitespace |
| `Whitespace.StripIdempotent` | yosaver.py:66 | stripping twice is stripping once |
| `Handler.TempFileName` | yosaver.py:93 | the name is `video_` + digits + `.mp4`, and the itag can be read back from it |
| `Handler.TempFileNameInjective` | yosaver.py:93 | streams with different itags get different temporary files |
| `Handler.Caption` | yosaver.py:103 | the caption of the delivered video carries the video's title |
| `Handler.Handle` | yosaver.py:64-112 | something is looked up exactly when the stripped text matches the link pattern; otherwise the not-a-link reply is the only change; a video is delivered exactly when info, a stream within the limit, the download and the send all succeed |
| `Handler.Respond` | yosaver.py:68-112 | replies, calls and videos only grow; a call is made exactly for a link, and the first is the info lookup of the stripped url |
| `Handler.Bot.ReplyText` | yosaver.py:69-112 | the reply is appended to the chat and nothing else changes |
| `Handler.Bot.HandleMessage` | yosaver.py:64-112 | running the handler step by step changes replies, files, videos and calls exactly as `Handle` says |
| `Handler.Bot.DownloadTo` | yosaver.py:96 | the download is recorded and adds the file when it completes or leaves a partial file |
| `Handler.Bot.Send` | yosaver.py:99-105 | the send is recorded and delivers the video only when it does not raise |
| `Handler.Bot.RemoveFile` | yosaver.py:108 | the temporary file is removed from disk and nothing else changes |
| `Handler.NotALinkOnly` | yosaver.py:66-70 | text that is not a link after stripping gets only the not-a-link reply; no lookup, download or send happens and no file changes |
| `Handler.EarlyExits` | yosaver.py:72-90 | in this order: no info ends with the no-info reply, no stream with the no-stream reply, a stream above the limit with the too-large reply; none of them downloads, sends or touches a file |
| `Handler.SizeGuardStrict` | yosaver.py:87-96 | the download of `video_<itag>.mp4` happens exactly when the size is at most `MAX_FILE_SIZE` (2 GiB), so a stream of exactly 2 GiB is downloaded |
| `Handler.DeliveryRemovesFile` | yosaver.py:93-108 | after a successful download and send, the temporary file is gone, the video with its caption is delivered, and the only reply is the loading one |
| `Handler.SendFailureLeavesFile` | yosaver.py:96-112 | when the send raises, the downloaded file stays on disk, no video is delivered and the generic error is replied |
| `Handler.DownloadFailureKeepsPartialFile` | yosaver.py:96-112 | when the download raises, the generic error is replied and a partially written file is not removed |
| `Handler.DeliveredIff` | yosaver.py:64-112 | a video is delivered exactly when the text is a link, info and a stream within the limit are found, and download and send succeed; never more than one |
| `Handler.RepliesPerMessage` | yosaver.py:64-112 | earlier replies are kept; one message adds one or two replies, the first being not-a-link or loading |
| `Handler.FilesTouched` | yosaver.py:93-108 | a message can only add or remove a `video_<itag>.mp4` file |
| `Handler.OnlyTempFilesChange` | yosaver.py:93-108 | over any sequence of messages, only `video_<itag>.mp4` files appear on or disappear from disk |
| `Handler.RepliesPerRun` | yosaver.py:64-112 | over any sequence of messages, replies only grow, by one to two per message, and at most one video is delivered per message |

## Left out

- Bot start-up (`Application` builder, handler registration, `run_polling`) and the
  `/start` reply (yosaver.py:23-32, 115-123): library plumbing.
- The health-check HTTP server and its daemon thread (yosaver.py:125-139): network I/O
  and concurrency.
- Logging and reading `BOT_TOKEN` from the environment (yosaver.py:12-20).
- The inside of `get_video_info` and `YouTube(url)` (yosaver.py:41-53): the model
  takes its outcome as an input, `None` for any failure.
- The stream query `filter(progressive=True).order_by('resolution').desc().first()`
  (yosaver.py:81): its selection and tie-breaking live in the video library, which is
  not part of this model. The chosen stream, or none, is an input.
- Whether `stream.download` leaves a partial file when it raises is decided by the
  video library; it is an input of the model (`DownloadRaised(leftPartialFile)`).
- A `stream.filesize` lookup, a `reply_text` call or `os.remove` that itself raises:
  the model lets only the download and the send fail.
- The reply texts are modelled as the kinds of reply (`Reply`), not as their wording.
  The too-large reply carries the byte size; its floating-point megabyte figure with
  `.1f` formatting (yosaver.py:88-89) is left out.
- The `await`s of the coroutine and any interleaving of concurrent messages: each
  message is handled to completion before the next.
- Duration.FormatDuration: takes a `nat`, so Python's behaviour on negative seconds
  is not modelled.
