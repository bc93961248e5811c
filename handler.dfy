/**
 * handle_message (yosaver.py:64-112): the decision pipeline that answers one
 * chat message. The calls into the chat and video libraries are replaced by
 * what they answer (`World`); the effects the handler has are the replies it
 * sends, the files it leaves on disk, the videos it delivers and the external
 * operations it invokes.
 *
 * `Handle` states the effect of one message on the bot's `State`; the class
 * `Bot` runs the handler step by step and is proved to have exactly that effect.
 */
module Handler {
  import opened Wrappers
  import opened Decimal
  import opened UrlValidator
  import opened Whitespace

  /** MAX_FILE_SIZE (yosaver.py:21): 2 GiB. */
  const MaxFileSize: nat := 2 * 1024 * 1024 * 1024

  /** What get_video_info returns when it succeeds (yosaver.py:45-50). */
  datatype VideoInfo = VideoInfo(title: string, author: string, length: nat)

  /** The progressive stream chosen by the library query of yosaver.py:81. */
  datatype Stream = Stream(itag: nat, filesize: nat)

  /** How `stream.download` (yosaver.py:96) ends; a failure may leave a partial file. */
  datatype DownloadResult = Downloaded | DownloadRaised(leftPartialFile: bool)

  /** The answers of the outside world while one message is handled. */
  datatype World = World(
    info: Option<VideoInfo>,      // get_video_info: None on any failure
    stream: Option<Stream>,       // the stream query: None when nothing suitable
    download: DownloadResult,     // stream.download
    sendOk: bool)                 // opening the file and send_video

  /** The texts the handler sends to the chat. */
  datatype Reply =
    | NotALink              // yosaver.py:69
    | Loading               // yosaver.py:72
    | NoInfo                // yosaver.py:77
    | NoStream              // yosaver.py:84
    | TooLarge(size: nat)   // yosaver.py:88-89, carrying the stream's byte size
    | Failed                // yosaver.py:112

  /** The external operations the handler invokes. */
  datatype Call =
    | GetVideoInfo(url: string)
    | QueryStreams
    | Download(path: string)
    | SendVideo(path: string, caption: string)

  datatype Video = Video(path: string, caption: string)

  /** What one chat and the working directory hold. */
  datatype State = State(replies: seq<Reply>, files: set<string>, videos: seq<Video>, calls: seq<Call>)

  /** The temporary file name of yosaver.py:93; the itag can be read back from it. */
  function TempFileName(itag: nat): (r: string)
    ensures |r| >= 11 && r[..6] == "video_" && r[|r| - 4..] == ".mp4"
    ensures ParseNat(r[6..|r| - 4]) == Some(itag)
  {
    var r := "video_" + Digits(itag) + ".mp4";
    assert r[6..|r| - 4] == Digits(itag);
    ParseDigits(itag);
    r
  }

  /** Streams with different itags never share a temporary file. */
  lemma TempFileNameInjective(a: nat, b: nat)
    requires TempFileName(a) == TempFileName(b)
    ensures a == b
  {
  }

  /** The caption of the delivered video (yosaver.py:103). */
  function Caption(title: string): (r: string)
    ensures 2 + |title| <= |r| && r[2..2 + |title|] == title
  {
    "\U{1F3AC} " + title + "\n\U{1F4E5} Готово! Скачано через @yosaverbot"
  }

  /**
   * The effect of handle_message on `st` for the message text `text`
   * (yosaver.py:64-112). Anything is looked up only when the stripped text
   * matches the link pattern; otherwise the one not-a-link reply is all that
   * happens. A video is delivered exactly when every step succeeds.
   */
  function Handle(st: State, text: string, w: World): (r: State)
    ensures |r.calls| > |st.calls| <==> Matches(Strip(text))
    ensures !Matches(Strip(text)) ==> r == st.(replies := st.replies + [NotALink])
    ensures |r.videos| == |st.videos| + 1
            <==> ReachesDownload(IsValidYouTubeUrl(Strip(text)), w) && w.download.Downloaded? && w.sendOk
  {
    var url := Strip(text);
    var isLink := IsValidYouTubeUrl(url);
    NotALinkOnly(st, url, w);
    DeliveredIff(st, url, isLink, w);
    Respond(st, url, isLink, w)
  }

  /**
   * The effect of handle_message once the text has been stripped to `url` and
   * the link check has said whether it is a link (`isLink`). The chat, the
   * calls made and the videos sent only grow; the first call, made only for
   * a link, asks for the information on `url`.
   */
  function Respond(st: State, url: string, isLink: bool, w: World): (r: State)
    ensures st.replies <= r.replies && st.calls <= r.calls && st.videos <= r.videos
    ensures |r.calls| > |st.calls| <==> isLink
    ensures isLink ==> |r.calls| > |st.calls| && r.calls[|st.calls|] == GetVideoInfo(url)
  {
    if !isLink then
      st.(replies := st.replies + [NotALink])
    else
      var st := st.(replies := st.replies + [Loading], calls := st.calls + [GetVideoInfo(url)]);
      match w.info
      case None => st.(replies := st.replies + [NoInfo])
      case Some(info) =>
        var st := st.(calls := st.calls + [QueryStreams]);
        match w.stream
        case None => st.(replies := st.replies + [NoStream])
        case Some(stream) =>
          if stream.filesize > MaxFileSize then
            st.(replies := st.replies + [TooLarge(stream.filesize)])
          else
            var path := TempFileName(stream.itag);
            var st := st.(calls := st.calls + [Download(path)]);
            match w.download
            case DownloadRaised(left) =>
              st.(files := if left then st.files + {path} else st.files,
                  replies := st.replies + [Failed])
            case Downloaded =>
              var caption := Caption(info.title);
              var st := st.(files := st.files + {path}, calls := st.calls + [SendVideo(path, caption)]);
              if w.sendOk then
                st.(files := st.files - {path}, videos := st.videos + [Video(path, caption)])
              else
                st.(replies := st.replies + [Failed])
  }

  /** A checked link for which a stream within the size limit was found. */
  predicate ReachesDownload(isLink: bool, w: World) {
    isLink && w.info.Some? && w.stream.Some? && w.stream.value.filesize <= MaxFileSize
  }

  ghost predicate IsTempFileName(f: string) {
    exists itag: nat :: f == TempFileName(itag)
  }

  // ---------------------------------------------------------------------------
  // One message. The lemmas are stated for `Respond`, whatever the link check
  // said; `Handle` is `Respond` applied to the stripped text and its verdict.

  /** Text that is no link gets the one not-a-link reply; nothing is looked up, downloaded or sent. */
  lemma NotALinkOnly(st: State, url: string, w: World)
    ensures Respond(st, url, false, w) == st.(replies := st.replies + [NotALink])
  {
  }

  /** The early exits, in order: no info, then no stream, then a stream above the limit. */
  lemma EarlyExits(st: State, url: string, w: World)
    ensures var st' := Respond(st, url, true, w);
            && (w.info.None? ==>
                  st' == st.(replies := st.replies + [Loading, NoInfo], calls := st.calls + [GetVideoInfo(url)]))
            && (w.info.Some? && w.stream.None? ==>
                  st' == st.(replies := st.replies + [Loading, NoStream], calls := st.calls + [GetVideoInfo(url), QueryStreams]))
            && (w.info.Some? && w.stream.Some? && w.stream.value.filesize > MaxFileSize ==>
                  st' == st.(replies := st.replies + [Loading, TooLarge(w.stream.value.filesize)],
                             calls := st.calls + [GetVideoInfo(url), QueryStreams]))
  {
  }

  /** The size guard is strict: a stream of exactly MaxFileSize bytes is downloaded, a larger one is not. */
  lemma SizeGuardStrict(st: State, url: string, w: World)
    requires w.info.Some? && w.stream.Some?
    ensures var st' := Respond(st, url, true, w);
            (Download(TempFileName(w.stream.value.itag)) in st'.calls[|st.calls|..]
             <==> w.stream.value.filesize <= MaxFileSize)
  {
    var st' := Respond(st, url, true, w);
    var path := TempFileName(w.stream.value.itag);
    var added := st'.calls[|st.calls|..];
    if w.stream.value.filesize <= MaxFileSize {
      assert added[2] == Download(path);
    } else {
      assert added == [GetVideoInfo(url), QueryStreams];
    }
  }

  /** A delivered video's temporary file is removed; the chat gets only the loading reply. */
  lemma DeliveryRemovesFile(st: State, url: string, w: World)
    requires ReachesDownload(true, w) && w.download.Downloaded? && w.sendOk
    ensures var path := TempFileName(w.stream.value.itag);
            var st' := Respond(st, url, true, w);
            && st'.files == st.files - {path}
            && st'.videos == st.videos + [Video(path, Caption(w.info.value.title))]
            && st'.replies == st.replies + [Loading]
  {
  }

  /** When the send raises, the downloaded file stays on disk and the generic error is replied. */
  lemma SendFailureLeavesFile(st: State, url: string, w: World)
    requires ReachesDownload(true, w) && w.download.Downloaded? && !w.sendOk
    ensures var path := TempFileName(w.stream.value.itag);
            var st' := Respond(st, url, true, w);
            && st'.files == st.files + {path}
            && st'.videos == st.videos
            && st'.replies == st.replies + [Loading, Failed]
  {
  }

  /** When the download raises, the error is replied and whatever part of the file was written stays. */
  lemma DownloadFailureKeepsPartialFile(st: State, url: string, w: World)
    requires ReachesDownload(true, w) && w.download.DownloadRaised?
    ensures var path := TempFileName(w.stream.value.itag);
            var st' := Respond(st, url, true, w);
            && st'.files == (if w.download.leftPartialFile then st.files + {path} else st.files)
            && st'.videos == st.videos
            && st'.replies == st.replies + [Loading, Failed]
  {
  }

  /** A video is delivered exactly when every step succeeds, and never more than one. */
  lemma DeliveredIff(st: State, url: string, isLink: bool, w: World)
    ensures var st' := Respond(st, url, isLink, w);
            && (|st'.videos| == |st.videos| + 1 <==> ReachesDownload(isLink, w) && w.download.Downloaded? && w.sendOk)
            && (|st'.videos| == |st.videos| || |st'.videos| == |st.videos| + 1)
  {
  }

  /** Earlier replies are kept; each message adds one or two, the first of them NotALink or Loading. */
  lemma RepliesPerMessage(st: State, url: string, isLink: bool, w: World)
    ensures var st' := Respond(st, url, isLink, w);
            && st.replies <= st'.replies
            && |st.replies| + 1 <= |st'.replies| <= |st.replies| + 2
            && st'.replies[|st.replies|] == (if isLink then Loading else NotALink)
  {
    var st' := Respond(st, url, isLink, w);
    var added: seq<Reply>;
    if !isLink {
      added := [NotALink];
    } else if ReachesDownload(isLink, w) && w.download.Downloaded? && w.sendOk {
      added := [Loading];
    } else if ReachesDownload(isLink, w) {
      added := [Loading, Failed];
    } else {
      EarlyExits(st, url, w);
      added := st'.replies[|st.replies|..];
      assert |added| == 2 && added[0] == Loading;
    }
    assert st'.replies == st.replies + added;
  }

  /** Only a temporary video file can appear on or disappear from disk. */
  lemma FilesTouched(st: State, url: string, isLink: bool, w: World)
    ensures var st' := Respond(st, url, isLink, w);
            forall f :: (f in st'.files) != (f in st.files) ==> IsTempFileName(f)
  {
    var st' := Respond(st, url, isLink, w);
    if ReachesDownload(isLink, w) {
      var path := TempFileName(w.stream.value.itag);
      assert st'.files == st.files + {path} || st'.files == st.files - {path} || st'.files == st.files;
      forall f | (f in st'.files) != (f in st.files)
        ensures IsTempFileName(f)
      {
        assert f == path;
      }
    } else {
      assert st'.files == st.files;
    }
  }

  // ---------------------------------------------------------------------------
  // A sequence of messages

  /** The state after handling `msgs` one after another. */
  function HandleAll(st: State, msgs: seq<(string, World)>): State
    decreases |msgs|
  {
    if msgs == [] then st else HandleAll(Handle(st, msgs[0].0, msgs[0].1), msgs[1..])
  }

  /** Over any run, the files that appear or disappear are temporary video files. */
  lemma {:induction false} OnlyTempFilesChange(st: State, msgs: seq<(string, World)>)
    ensures var st' := HandleAll(st, msgs);
            forall f :: (f in st'.files) != (f in st.files) ==> IsTempFileName(f)
    decreases |msgs|
  {
    if msgs != [] {
      var url := Strip(msgs[0].0);
      var mid := Handle(st, msgs[0].0, msgs[0].1);
      FilesTouched(st, url, IsValidYouTubeUrl(url), msgs[0].1);
      OnlyTempFilesChange(mid, msgs[1..]);
    }
  }

  /** Over any run, every message adds one or two replies and at most one video. */
  lemma {:induction false} RepliesPerRun(st: State, msgs: seq<(string, World)>)
    ensures var st' := HandleAll(st, msgs);
            && st.replies <= st'.replies
            && |st.replies| + |msgs| <= |st'.replies| <= |st.replies| + 2 * |msgs|
            && |st.videos| <= |st'.videos| <= |st.videos| + |msgs|
    decreases |msgs|
  {
    if msgs != [] {
      var url := Strip(msgs[0].0);
      var mid := Handle(st, msgs[0].0, msgs[0].1);
      RepliesPerMessage(st, url, IsValidYouTubeUrl(url), msgs[0].1);
      DeliveredIff(st, url, IsValidYouTubeUrl(url), msgs[0].1);
      RepliesPerRun(mid, msgs[1..]);
    }
  }

  /** The handler run as the Python code runs it, one side effect at a time. */
  class Bot {
    var replies: seq<Reply>
    var files: set<string>
    var videos: seq<Video>
    var calls: seq<Call>

    function Snapshot(): State
      reads this
    {
      State(replies, files, videos, calls)
    }

    constructor (disk: set<string>)
      ensures Snapshot() == State([], disk, [], [])
    {
      replies, files, videos, calls := [], disk, [], [];
    }

    /** update.message.reply_text */
    method ReplyText(r: Reply)
      modifies this
      ensures Snapshot() == old(Snapshot()).(replies := old(replies) + [r])
    {
      replies := replies + [r];
    }

    /** stream.download(filename=path): writes the file, or raises. */
    method DownloadTo(path: string, result: DownloadResult) returns (ok: bool)
      modifies this
      ensures ok == result.Downloaded?
      ensures Snapshot() == old(Snapshot()).(
                calls := old(calls) + [Download(path)],
                files := if ok || result.leftPartialFile then old(files) + {path} else old(files))
    {
      calls := calls + [Download(path)];
      ok := result.Downloaded?;
      if ok || result.leftPartialFile {
        files := files + {path};
      }
    }

    /** open(path) and context.bot.send_video: delivers the file, or raises. */
    method Send(path: string, caption: string, sendOk: bool) returns (ok: bool)
      modifies this
      ensures ok == sendOk
      ensures Snapshot() == old(Snapshot()).(
                calls := old(calls) + [SendVideo(path, caption)],
                videos := if ok then old(videos) + [Video(path, caption)] else old(videos))
    {
      calls := calls + [SendVideo(path, caption)];
      ok := sendOk;
      if ok {
        videos := videos + [Video(path, caption)];
      }
    }

    /** os.remove(path) */
    method RemoveFile(path: string)
      modifies this
      ensures Snapshot() == old(Snapshot()).(files := old(files) - {path})
    {
      files := files - {path};
    }

    /** handle_message (yosaver.py:64-112). */
    method HandleMessage(text: string, w: World)
      modifies this
      ensures Snapshot() == Handle(old(Snapshot()), text, w)
    {
      var url := Strip(text);
      if !IsValidYouTubeUrl(url) {
        ReplyText(NotALink);
        return;
      }
      ReplyText(Loading);

      calls := calls + [GetVideoInfo(url)];
      if w.info.None? {
        ReplyText(NoInfo);
        return;
      }
      var info := w.info.value;

      calls := calls + [QueryStreams];
      if w.stream.None? {
        ReplyText(NoStream);
        return;
      }
      var stream := w.stream.value;

      if stream.filesize > MaxFileSize {
        ReplyText(TooLarge(stream.filesize));
        return;
      }

      var path := TempFileName(stream.itag);
      // An exception in the download or the send skips the rest of the try
      // block, os.remove included, and lands in the except clause.
      var ok := DownloadTo(path, w.download);
      if ok {
        ok := Send(path, Caption(info.title), w.sendOk);
      }
      if ok {
        RemoveFile(path);
      } else {
        ReplyText(Failed);
      }
    }
  }
}
