/** download_and_send: download, upload with a caption, clean up, and
    report; every exception inside is caught, the status message is deleted
    and str(e) is sent to the chat. */
module Delivery {

  import opened Wrappers
  import opened Text
  import opened Caption
  import opened Effects

  /** What the blocking download gives back. Fetched carries the
      "filepath" of the result, whether os.path.exists holds for it, and
      the metadata; DownloadRaised carries str(e) of the exception raised
      (for instance "❌ No audio streams found"). */
  datatype DownloadOutcome =
    | Fetched(filepath: Option<string>, onDisk: bool, meta: Metadata)
    | DownloadRaised(error: string)

  /** The calls made, and str(e) of an exception that escapes (one raised
      by the send_message that reports an earlier one). */
  datatype Run = Run(trace: seq<Effect>, escaped: Option<string>)

  const FileMissingText: string := "\U{274C} Download failed or file not found."

  /** The closing message; elapsed is int(time.time() - start_ts). */
  function UploadedText(elapsed: int): string {
    "\U{2705} Uploaded in " + IntToString(elapsed) + "s."
  }

  /** The file is there to upload: a truthy filepath that exists on disk. */
  predicate FileReady(outcome: DownloadOutcome) {
    outcome.Fetched? && Present(outcome.filepath) && outcome.onDisk
  }

  /** send_audio for mode "audio", send_video for every other mode. */
  function Upload(mode: string, chatId: int, path: string, caption: string, markup: Keyboard): Effect {
    if mode == "audio" then SendAudio(chatId, path, caption, markup)
    else SendVideo(chatId, path, caption, markup)
  }

  /** The end of download_and_send once the try block has made the calls
      in done. If one of them raised e, the except branch runs: safe_delete
      (whose failure is swallowed), then send_message(chat_id, str(e)),
      which may raise in turn. */
  function Finish(client: Client, chatId: int, done: seq<Effect>, failure: Option<string>): Run {
    match failure
    case None => Run(done, None)
    case Some(e) => Run(done + [DeleteStatus, SendMessage(chatId, e)], client(SendMessage(chatId, e)))
  }

  /** The try block of download_and_send: the calls it makes, and str(e)
      of the exception that ends it early, if one does. Once the file is
      there: the upload, then (if it returned) the status delete, the file
      removal and the closing message. A failed safe_delete or os.remove
      is swallowed and does not end it. */
  function Attempt(client: Client, outcome: DownloadOutcome, chatId: int, url: string,
                   mode: string, caption: string, markup: Keyboard, elapsed: int): (seq<Effect>, Option<string>)
  {
    var start := [Download(url, mode)];
    match outcome
    case DownloadRaised(e) => (start, Some(e))
    case Fetched(fp, onDisk, meta) =>
      if !Present(fp) || !onDisk then
        var missing := SendMessage(chatId, FileMissingText);
        var failure := client(missing);
        (start + [missing] + (if failure.None? then [DeleteStatus] else []), failure)
      else
        var send := Upload(mode, chatId, fp.value, caption, markup);
        if client(send).Some? then (start + [send], client(send))
        else
          var closing := SendMessage(chatId, UploadedText(elapsed));
          (start + [send, DeleteStatus, RemoveFile(fp.value), closing], client(closing))
  }

  /** The calls download_and_send makes with a given caption: its try
      block, then the except branch if the try block raised. */
  function Route(client: Client, outcome: DownloadOutcome, chatId: int, url: string,
                 mode: string, caption: string, markup: Keyboard, elapsed: int): Run
  {
    var (done, failure) := Attempt(client, outcome, chatId, url, mode, caption, markup, elapsed);
    Finish(client, chatId, done, failure)
  }

  /** The caption download_and_send builds once the download has returned;
      no caption is built when it raised. */
  function CaptionFor(outcome: DownloadOutcome, requester: User): string {
    if outcome.Fetched? then CaptionText(outcome.meta, requester) else ""
  }

  /** The calls download_and_send makes. */
  function Deliver(client: Client, outcome: DownloadOutcome, chatId: int, url: string,
                   mode: string, requester: User, markup: Keyboard, elapsed: int): Run
  {
    Route(client, outcome, chatId, url, mode, CaptionFor(outcome, requester), markup, elapsed)
  }

  /** download_and_send as the source runs it: the try block, then the
      except branch for whatever it raised. */
  method DownloadAndSend(client: Client, outcome: DownloadOutcome, chatId: int, url: string,
                         mode: string, requester: User, markup: Keyboard, elapsed: int)
    returns (trace: seq<Effect>, escaped: Option<string>)
    ensures Run(trace, escaped) == Deliver(client, outcome, chatId, url, mode, requester, markup, elapsed)
  {
    var failure;
    trace, failure := TryBlock(client, outcome, chatId, url, mode, requester, markup, elapsed);
    assert (trace, failure) == Attempt(client, outcome, chatId, url, mode, CaptionFor(outcome, requester), markup, elapsed);
    escaped := None;
    if failure.Some? {
      var report := SendMessage(chatId, failure.value);
      trace := trace + [DeleteStatus, report];
      escaped := client(report);
    }
  }

  /** The try block, one call after another; each call that raises leaves it. */
  method TryBlock(client: Client, outcome: DownloadOutcome, chatId: int, url: string,
                  mode: string, requester: User, markup: Keyboard, elapsed: int)
    returns (trace: seq<Effect>, failure: Option<string>)
    ensures (trace, failure) == Attempt(client, outcome, chatId, url, mode, CaptionFor(outcome, requester), markup, elapsed)
  {
    trace := [Download(url, mode)];
    if outcome.DownloadRaised? {
      return trace, Some(outcome.error);
    }
    if !Present(outcome.filepath) || !outcome.onDisk {
      var missing := SendMessage(chatId, FileMissingText);
      trace := trace + [missing];
      failure := client(missing);
      if failure.None? {
        trace := trace + [DeleteStatus];
      }
      assert trace == [Download(url, mode)] + [missing] + (if failure.None? then [DeleteStatus] else []);
      return;
    }
    var path := outcome.filepath.value;
    var caption := BuildCaption(outcome.meta, requester);
    var send := Upload(mode, chatId, path, caption, markup);
    AttemptReady(client, outcome, chatId, url, mode, caption, markup, elapsed);
    var start := trace;
    trace := trace + [send];
    failure := client(send);
    if failure.Some? {
      return;
    }
    var closing := SendMessage(chatId, UploadedText(elapsed));
    trace := trace + [DeleteStatus];
    trace := trace + [RemoveFile(path)];
    trace := trace + [closing];
    failure := client(closing);
    AppendFour(start, send, DeleteStatus, RemoveFile(path), closing);
  }

  lemma AppendFour(s: seq<Effect>, a: Effect, b: Effect, c: Effect, d: Effect)
    ensures s + [a] + [b] + [c] + [d] == s + [a, b, c, d]
  {
  }

  /** The try block once the file is there, for any caption. */
  lemma AttemptReady(client: Client, outcome: DownloadOutcome, chatId: int, url: string,
                     mode: string, caption: string, markup: Keyboard, elapsed: int)
    requires FileReady(outcome)
    ensures var send := Upload(mode, chatId, outcome.filepath.value, caption, markup);
      var closing := SendMessage(chatId, UploadedText(elapsed));
      Attempt(client, outcome, chatId, url, mode, caption, markup, elapsed) ==
        if client(send).Some? then ([Download(url, mode), send], client(send))
        else ([Download(url, mode), send, DeleteStatus, RemoveFile(outcome.filepath.value), closing], client(closing))
  {
    var send := Upload(mode, chatId, outcome.filepath.value, caption, markup);
    var closing := SendMessage(chatId, UploadedText(elapsed));
    var start := [Download(url, mode)];
    assert start + [send] == [Download(url, mode), send];
    assert start + [send, DeleteStatus, RemoveFile(outcome.filepath.value), closing]
      == [Download(url, mode), send, DeleteStatus, RemoveFile(outcome.filepath.value), closing];
  }

  /** The caption of download_and_send: the lines that are shown, joined
      with newlines. */
  method BuildCaption(meta: Metadata, requester: User) returns (caption: string)
    ensures caption == CaptionText(meta, requester)
  {
    var uploader: Option<string> := None;
    if Present(meta.uploader) {
      uploader := Some(UploaderLine(meta.uploader.value));
    }
    var duration: Option<string> := None;
    if meta.duration.Some? {
      duration := Some(DurationLine(meta.duration.value));
    }
    var lines := AppendLines(TitleLine(meta), uploader, duration, RequesterLine(requester), SourceLine(meta));
    caption := Join(lines, '\n');
  }

  /** The list of caption lines, growing by one append per line shown. */
  method AppendLines(title: string, uploader: Option<string>, duration: Option<string>,
                     request: string, source: string) returns (lines: seq<string>)
    ensures lines == Assemble(title, uploader, duration, request, source)
  {
    lines := [title];
    if uploader.Some? {
      lines := lines + [uploader.value];
    }
    if duration.Some? {
      lines := lines + [duration.value];
    }
    lines := lines + [request];
    lines := lines + [source];
    AssembleAppends(title, uploader, duration, request, source);
  }

  /** The assembled lines as the appends build them. */
  lemma AssembleAppends(t: string, u: Option<string>, d: Option<string>, r: string, src: string)
    ensures Assemble(t, u, d, r, src) ==
      [t] + (if u.Some? then [u.value] else []) + (if d.Some? then [d.value] else []) + [r] + [src]
  {
    var us := if u.Some? then [u.value] else [];
    var ds := if d.Some? then [d.value] else [];
    assert [t] + us + ds + [r] + [src] == [t] + us + ds + [r, src];
  }

  // ---------------------------------------------------------------------
  // Properties of the paths through download_and_send

  /** The upload download_and_send makes when the file is ready. */
  function UploadOf(outcome: DownloadOutcome, chatId: int, mode: string, caption: string, markup: Keyboard): Effect
    requires FileReady(outcome)
  {
    Upload(mode, chatId, outcome.filepath.value, caption, markup)
  }

  /** Every path ends in the calls of the try block, followed by the delete
      and the error report when it raised; only that report can raise out. */
  lemma {:induction false} FinishShape(client: Client, chatId: int, done: seq<Effect>, failure: Option<string>)
    ensures var r := Finish(client, chatId, done, failure);
      && r.trace[..|done|] == done
      && (failure.None? ==> r.trace == done && r.escaped.None?)
      && (failure.Some? ==>
            r.trace[|done|..] == [DeleteStatus, SendMessage(chatId, failure.value)]
            && r.escaped == client(SendMessage(chatId, failure.value)))
  {
    if failure.Some? {
      var tail := [DeleteStatus, SendMessage(chatId, failure.value)];
      assert (done + tail)[..|done|] == done && (done + tail)[|done|..] == tail;
    }
  }

  /** A download that raises is reported verbatim: the status message is
      deleted and str(e) is sent, and nothing else happens. */
  lemma DownloadErrorReported(client: Client, outcome: DownloadOutcome, chatId: int, url: string,
                              mode: string, caption: string, markup: Keyboard, elapsed: int)
    requires outcome.DownloadRaised?
    ensures Route(client, outcome, chatId, url, mode, caption, markup, elapsed)
      == Run([Download(url, mode), DeleteStatus, SendMessage(chatId, outcome.error)],
             client(SendMessage(chatId, outcome.error)))
  {
  }

  /** Without a file on disk nothing is uploaded: the failure message is
      sent, then the status message deleted (or, when that send raises,
      the except branch runs). */
  lemma MissingFileReported(client: Client, outcome: DownloadOutcome, chatId: int, url: string,
                            mode: string, caption: string, markup: Keyboard, elapsed: int)
    requires outcome.Fetched? && !FileReady(outcome)
    ensures var r := Route(client, outcome, chatId, url, mode, caption, markup, elapsed);
      var missing := SendMessage(chatId, FileMissingText);
      && |r.trace| >= 3 && r.trace[..2] == [Download(url, mode), missing]
      && (client(missing).None? ==> r == Run([Download(url, mode), missing, DeleteStatus], None))
      && (client(missing).Some? ==> r.trace[2..] == [DeleteStatus, SendMessage(chatId, client(missing).value)])
  {
    var missing := SendMessage(chatId, FileMissingText);
    var (done, failure) := Attempt(client, outcome, chatId, url, mode, caption, markup, elapsed);
    FinishShape(client, chatId, done, failure);
    assert done[..2] == [Download(url, mode), missing];
  }

  /** The happy path: upload, delete the status message, remove the file,
      report the time taken, and nothing escapes. */
  lemma Delivered(client: Client, outcome: DownloadOutcome, chatId: int, url: string,
                  mode: string, caption: string, markup: Keyboard, elapsed: int)
    requires FileReady(outcome)
    requires client(UploadOf(outcome, chatId, mode, caption, markup)).None?
    requires client(SendMessage(chatId, UploadedText(elapsed))).None?
    ensures Route(client, outcome, chatId, url, mode, caption, markup, elapsed)
      == Run([Download(url, mode), UploadOf(outcome, chatId, mode, caption, markup), DeleteStatus,
              RemoveFile(outcome.filepath.value), SendMessage(chatId, UploadedText(elapsed))], None)
  {
  }

  /** Deleting the processing message is attempted on every path. */
  lemma StatusAlwaysDeleted(client: Client, outcome: DownloadOutcome, chatId: int, url: string,
                            mode: string, caption: string, markup: Keyboard, elapsed: int)
    ensures DeleteStatus in Route(client, outcome, chatId, url, mode, caption, markup, elapsed).trace
  {
    var (done, failure) := Attempt(client, outcome, chatId, url, mode, caption, markup, elapsed);
    var r := Finish(client, chatId, done, failure);
    FinishShape(client, chatId, done, failure);
    if failure.Some? {
      assert r.trace[|done|] == DeleteStatus;
    } else {
      assert done[2] == DeleteStatus;
    }
  }

  /** The three endings once the file is ready: the upload raised, the
      closing message raised, or nothing did. */
  lemma ReadyCases(client: Client, outcome: DownloadOutcome, chatId: int, url: string,
                   mode: string, caption: string, markup: Keyboard, elapsed: int)
    requires FileReady(outcome)
    ensures var r := Route(client, outcome, chatId, url, mode, caption, markup, elapsed);
      var up := UploadOf(outcome, chatId, mode, caption, markup);
      var closing := SendMessage(chatId, UploadedText(elapsed));
      var removal := RemoveFile(outcome.filepath.value);
      && (client(up).Some? ==>
            r == Run([Download(url, mode), up, DeleteStatus, SendMessage(chatId, client(up).value)],
                     client(SendMessage(chatId, client(up).value))))
      && (client(up).None? && client(closing).None? ==>
            r == Run([Download(url, mode), up, DeleteStatus, removal, closing], None))
      && (client(up).None? && client(closing).Some? ==>
            r == Run([Download(url, mode), up, DeleteStatus, removal, closing,
                      DeleteStatus, SendMessage(chatId, client(closing).value)],
                     client(SendMessage(chatId, client(closing).value))))
  {
    var up := UploadOf(outcome, chatId, mode, caption, markup);
    var closing := SendMessage(chatId, UploadedText(elapsed));
    var removal := RemoveFile(outcome.filepath.value);
    if client(up).None? && client(closing).Some? {
      var done := [Download(url, mode), up, DeleteStatus, removal, closing];
      assert done + [DeleteStatus, SendMessage(chatId, client(closing).value)]
        == [Download(url, mode), up, DeleteStatus, removal, closing,
            DeleteStatus, SendMessage(chatId, client(closing).value)];
    }
  }

  /** send_audio is used exactly when the file is ready and the mode is
      "audio", send_video exactly when it is ready and the mode is
      anything else. */
  lemma UploadMatchesMode(client: Client, outcome: DownloadOutcome, chatId: int, url: string,
                          mode: string, caption: string, markup: Keyboard, elapsed: int)
    ensures var t := Route(client, outcome, chatId, url, mode, caption, markup, elapsed).trace;
      && ((exists i :: 0 <= i < |t| && t[i].SendAudio?) <==> FileReady(outcome) && mode == "audio")
      && ((exists i :: 0 <= i < |t| && t[i].SendVideo?) <==> FileReady(outcome) && mode != "audio")
  {
    var t := Route(client, outcome, chatId, url, mode, caption, markup, elapsed).trace;
    if outcome.DownloadRaised? {
      DownloadErrorReported(client, outcome, chatId, url, mode, caption, markup, elapsed);
    } else if !FileReady(outcome) {
      MissingFileReported(client, outcome, chatId, url, mode, caption, markup, elapsed);
    } else {
      ReadyCases(client, outcome, chatId, url, mode, caption, markup, elapsed);
      assert t[1] == UploadOf(outcome, chatId, mode, caption, markup);
    }
  }

  /** The file is removed exactly when the upload returned, and then right
      after the status message is deleted; the path removed is the
      downloaded file's. */
  lemma RemovedOnlyAfterUpload(client: Client, outcome: DownloadOutcome, chatId: int, url: string,
                               mode: string, caption: string, markup: Keyboard, elapsed: int)
    ensures var t := Route(client, outcome, chatId, url, mode, caption, markup, elapsed).trace;
      && ((exists i :: 0 <= i < |t| && t[i].RemoveFile?)
          <==> FileReady(outcome) && client(UploadOf(outcome, chatId, mode, caption, markup)).None?)
      && (forall i :: 0 <= i < |t| && t[i].RemoveFile? ==>
            && FileReady(outcome) && i == 3
            && t[1] == UploadOf(outcome, chatId, mode, caption, markup)
            && client(t[1]).None? && t[2] == DeleteStatus
            && t[i].path == outcome.filepath.value)
  {
    var t := Route(client, outcome, chatId, url, mode, caption, markup, elapsed).trace;
    if outcome.DownloadRaised? {
      DownloadErrorReported(client, outcome, chatId, url, mode, caption, markup, elapsed);
    } else if !FileReady(outcome) {
      MissingFileReported(client, outcome, chatId, url, mode, caption, markup, elapsed);
    } else {
      ReadyCases(client, outcome, chatId, url, mode, caption, markup, elapsed);
      if client(UploadOf(outcome, chatId, mode, caption, markup)).None? {
        assert t[3].RemoveFile?;
      }
    }
  }

  /** An exception leaves download_and_send only from the send_message of
      the except branch: the last two calls are then the delete and that
      report, and what escapes is what the report raised. */
  lemma EscapesOnlyFromReport(client: Client, outcome: DownloadOutcome, chatId: int, url: string,
                              mode: string, caption: string, markup: Keyboard, elapsed: int)
    ensures var r := Route(client, outcome, chatId, url, mode, caption, markup, elapsed);
      r.escaped.Some? ==>
        && |r.trace| >= 3 && r.trace[|r.trace| - 2] == DeleteStatus
        && r.trace[|r.trace| - 1].SendMessage? && r.escaped == client(r.trace[|r.trace| - 1])
  {
    var (done, failure) := Attempt(client, outcome, chatId, url, mode, caption, markup, elapsed);
    FinishShape(client, chatId, done, failure);
    var r := Finish(client, chatId, done, failure);
    if failure.Some? {
      assert |done| >= 1;
      assert r.trace[|done|..][0] == r.trace[|r.trace| - 2];
      assert r.trace[|done|..][1] == r.trace[|r.trace| - 1];
    }
  }

  /** The download is the first call and made once; download_and_send
      itself never replies, answers a callback or looks a message up. */
  lemma DownloadFirst(client: Client, outcome: DownloadOutcome, chatId: int, url: string,
                      mode: string, caption: string, markup: Keyboard, elapsed: int)
    ensures var t := Route(client, outcome, chatId, url, mode, caption, markup, elapsed).trace;
      && |t| > 0 && t[0] == Download(url, mode)
      && (forall i :: 0 < i < |t| ==> !t[i].Download?)
      && (forall i :: 0 <= i < |t| ==> !t[i].Reply? && !t[i].Answer? && !t[i].FetchMessage?)
  {
    if outcome.DownloadRaised? {
      DownloadErrorReported(client, outcome, chatId, url, mode, caption, markup, elapsed);
    } else if !FileReady(outcome) {
      MissingFileReported(client, outcome, chatId, url, mode, caption, markup, elapsed);
    } else {
      ReadyCases(client, outcome, chatId, url, mode, caption, markup, elapsed);
    }
  }
}
