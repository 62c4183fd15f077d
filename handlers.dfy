/** The two handlers of main.py that matter: handle_text, which offers the
    Audio / Video choice for a message with a YouTube link, and
    callback_download, which runs when a choice button is pressed. */
module Handlers {

  import opened Wrappers
  import opened Text
  import opened LinkDetection
  import opened Caption
  import opened Effects
  import opened CallbackData
  import opened Delivery

  const NoLinkText: string := "No supported YouTube link detected. Send a YouTube URL."
  const ChooseText: string := "Choose download type:"
  const NotFoundText: string := "Original link not found."
  const ProcessingText: string := "\U{23F3} Processing... Please wait."

  const DeveloperButton: Button := UrlButton("Developer (@deweni2)", "https://t.me/deweni2")

  /** developer_button(): the markup sent with the uploaded file. */
  const DeveloperMarkup: Keyboard := [[DeveloperButton]]

  /** The keyboard of handle_text: the two choices for the message, then
      the developer link on a row of its own. */
  function ChoiceKeyboard(messageId: nat): Keyboard {
    [[CallbackButton("\U{1F4E5} Audio", Build("audio", messageId)),
      CallbackButton("\U{1F3AC} Video", Build("video", messageId))],
     [DeveloperButton]]
  }

  /** handle_text: detection runs on the stripped text; a link gets the
      choice keyboard, anything else the fixed hint and no keyboard. */
  function HandleText(text: string, messageId: nat): (r: Effect)
    ensures r == Reply(ChooseText, ChoiceKeyboard(messageId)) <==> ContainsLink(text)
    ensures r == Reply(NoLinkText, []) <==> !ContainsLink(text)
  {
    DetectIgnoresSurroundingSpace(text);
    if Detect(Strip(text)) == Some(YouTube) then Reply(ChooseText, ChoiceKeyboard(messageId))
    else Reply(NoLinkText, [])
  }

  /** A message as the lookup returns it; text is None for one without text. */
  datatype Message = Message(text: Option<string>)

  /** What client.get_messages does: returns a message (or None), or raises. */
  datatype Lookup = Returned(message: Option<Message>) | LookupRaised

  /** The original message: the looked-up one, or the message the button's
      message replies to when the lookup raises. */
  function Original(lookup: Lookup, replyTo: Option<Message>): Option<Message>
  {
    match lookup
    case Returned(m) => m
    case LookupRaised => replyTo
  }

  function PreparingText(mode: string): string {
    "Preparing " + mode + " download..."
  }

  /** The reply of the outer except branch. */
  function ErrorReply(e: string): Effect {
    Reply("Error: " + e, [])
  }

  /** A call whose exception goes to the outer except branch: the error
      reply follows when it raises; a failure of that reply is swallowed. */
  function Caught(client: Client, call: Effect): seq<Effect> {
    match client(call)
    case Some(e) => [ErrorReply(e)]
    case None => []
  }

  /** callback_download, for callback data as it arrives: nothing at all
      when the filter rejects it. The user who pressed the button is the
      requester of the download. */
  function OnCallback(client: Client, data: string, chatId: int, lookup: Lookup, replyTo: Option<Message>,
                      user: User, outcome: DownloadOutcome, elapsed: int): seq<Effect>
  {
    Pressed(client, data, chatId, lookup, replyTo, outcome, elapsed, CaptionFor(outcome, user))
  }

  /** callback_download with the caption download_and_send will build. */
  function Pressed(client: Client, data: string, chatId: int, lookup: Lookup, replyTo: Option<Message>,
                   outcome: DownloadOutcome, elapsed: int, caption: string): seq<Effect>
  {
    if !Accepts(data) then []
    else
      var (mode, id) := Parse(data).value;
      var fetch := FetchMessage(chatId, id);
      var original := Original(lookup, replyTo);
      if original.None? || !Present(original.value.text) then
        var alert := Answer(NotFoundText, true);
        [fetch, alert] + Caught(client, alert)
      else
        var ack := Answer(PreparingText(mode), false);
        if client(ack).Some? then [fetch, ack] + Caught(client, ack)
        else
          var status := SendMessage(chatId, ProcessingText);
          if client(status).Some? then [fetch, ack, status] + Caught(client, status)
          else
            var url := Strip(original.value.text.value);
            var run := Route(client, outcome, chatId, url, mode, caption, DeveloperMarkup, elapsed);
            [fetch, ack, status] + run.trace + (if run.escaped.Some? then [ErrorReply(run.escaped.value)] else [])
  }

  // ---------------------------------------------------------------------
  // Properties of the handlers

  /** The two choice buttons pass the filter and carry the same message id;
      they differ only in the mode. */
  lemma ChoiceButtons(messageId: nat)
    ensures var row := ChoiceKeyboard(messageId)[0];
      && row[0].CallbackButton? && row[1].CallbackButton?
      && Accepts(row[0].data) && Accepts(row[1].data)
      && Parse(row[0].data) == Some(("audio", messageId))
      && Parse(row[1].data) == Some(("video", messageId))
  {
    BuildAcceptedAndParsed("audio", messageId);
    BuildAcceptedAndParsed("video", messageId);
  }

  /** The recovered original message has no text: the user gets the alert,
      and there is no processing message and no download. */
  lemma NotFoundAborts(client: Client, data: string, chatId: int, lookup: Lookup, replyTo: Option<Message>,
                       outcome: DownloadOutcome, elapsed: int, caption: string)
    requires Accepts(data)
    requires var o := Original(lookup, replyTo); o.None? || !Present(o.value.text)
    ensures var t := Pressed(client, data, chatId, lookup, replyTo, outcome, elapsed, caption);
      && |t| >= 2 && t[0] == FetchMessage(chatId, Parse(data).value.1)
      && t[1] == Answer(NotFoundText, true)
      && (forall i :: 0 <= i < |t| ==> !t[i].Download? && !t[i].SendMessage?)
  {
  }

  /** The processing message and the download happen only for an original
      with text; the download is of that text stripped of surrounding
      whitespace, in the mode of the button. */
  lemma DownloadOfOriginal(client: Client, data: string, chatId: int, lookup: Lookup, replyTo: Option<Message>,
                           outcome: DownloadOutcome, elapsed: int, caption: string)
    requires Accepts(data)
    ensures var t := Pressed(client, data, chatId, lookup, replyTo, outcome, elapsed, caption);
      var o := Original(lookup, replyTo);
      forall i :: 0 <= i < |t| && t[i].Download? ==>
        o.Some? && Present(o.value.text) && t[i] == Download(Strip(o.value.text.value), Parse(data).value.0)
  {
    var o := Original(lookup, replyTo);
    var mode := Parse(data).value.0;
    var ack := Answer(PreparingText(mode), false);
    var status := SendMessage(chatId, ProcessingText);
    if o.Some? && Present(o.value.text) && client(ack).None? && client(status).None? {
      DeliveryBranch(client, data, chatId, lookup, replyTo, outcome, elapsed, caption);
    }
  }

  /** The trace once the processing message is out: the three calls so
      far, download_and_send's, and the error reply if an exception
      escaped it. */
  lemma DeliveryBranch(client: Client, data: string, chatId: int, lookup: Lookup, replyTo: Option<Message>,
                       outcome: DownloadOutcome, elapsed: int, caption: string)
    requires Accepts(data)
    requires var o := Original(lookup, replyTo); o.Some? && Present(o.value.text)
    requires client(Answer(PreparingText(Parse(data).value.0), false)).None?
    requires client(SendMessage(chatId, ProcessingText)).None?
    ensures var t := Pressed(client, data, chatId, lookup, replyTo, outcome, elapsed, caption);
      var url, mode := Strip(Original(lookup, replyTo).value.text.value), Parse(data).value.0;
      var run := Route(client, outcome, chatId, url, mode, caption, DeveloperMarkup, elapsed);
      && t == [FetchMessage(chatId, Parse(data).value.1), Answer(PreparingText(mode), false),
               SendMessage(chatId, ProcessingText)]
              + run.trace + (if run.escaped.Some? then [ErrorReply(run.escaped.value)] else [])
      && (forall i :: 0 <= i < |t| && t[i].Download? ==> t[i] == Download(url, mode))
  {
    var (mode, id) := Parse(data).value;
    var url := Strip(Original(lookup, replyTo).value.text.value);
    var run := Route(client, outcome, chatId, url, mode, caption, DeveloperMarkup, elapsed);
    DownloadFirst(client, outcome, chatId, url, mode, caption, DeveloperMarkup, elapsed);
    var pre := [FetchMessage(chatId, id), Answer(PreparingText(mode), false), SendMessage(chatId, ProcessingText)];
    var post := if run.escaped.Some? then [ErrorReply(run.escaped.value)] else [];
    OnlyDownloadBetween(pre, run.trace, post, Download(url, mode));
  }

  /** A download that is the only one of the middle part is the only one of
      the whole trace when the two ends make none. */
  lemma OnlyDownloadBetween(pre: seq<Effect>, mid: seq<Effect>, post: seq<Effect>, d: Effect)
    requires forall i :: 0 <= i < |pre| ==> !pre[i].Download?
    requires forall i :: 0 <= i < |post| ==> !post[i].Download?
    requires forall i :: 0 <= i < |mid| && mid[i].Download? ==> mid[i] == d
    ensures var t := pre + mid + post; forall i :: 0 <= i < |t| && t[i].Download? ==> t[i] == d
  {
    var t := pre + mid + post;
    forall i | 0 <= i < |t| && t[i].Download?
      ensures t[i] == d
    {
      if |pre| <= i < |pre| + |mid| {
        assert t[i] == mid[i - |pre|];
      }
    }
  }

  /** Each event of pre + mid + post is one of pre, of mid or of post. */
  lemma ElementsOf(pre: seq<Effect>, mid: seq<Effect>, post: seq<Effect>)
    ensures var t := pre + mid + post;
      forall i :: 0 <= i < |t| ==>
        (i < |pre| && t[i] == pre[i])
        || (|pre| <= i < |pre| + |mid| && t[i] == mid[i - |pre|])
        || (|pre| + |mid| <= i && t[i] == post[i - |pre| - |mid|])
  {
  }

  /** The button's mode is the upload's: after the Audio button nothing is
      sent as a video, and after the Video button nothing as audio. The
      message looked up is the one the button names. */
  lemma ButtonModeKept(client: Client, mode: string, messageId: nat, chatId: int, lookup: Lookup,
                       replyTo: Option<Message>, outcome: DownloadOutcome, elapsed: int, caption: string)
    requires IsMode(mode)
    ensures var t := Pressed(client, Build(mode, messageId), chatId, lookup, replyTo, outcome, elapsed, caption);
      && |t| > 0 && t[0] == FetchMessage(chatId, messageId)
      && (mode == "audio" ==> forall i :: 0 <= i < |t| ==> !t[i].SendVideo?)
      && (mode == "video" ==> forall i :: 0 <= i < |t| ==> !t[i].SendAudio?)
  {
    var data := Build(mode, messageId);
    BuildAcceptedAndParsed(mode, messageId);
    var o := Original(lookup, replyTo);
    var ack := Answer(PreparingText(mode), false);
    var status := SendMessage(chatId, ProcessingText);
    if o.Some? && Present(o.value.text) && client(ack).None? && client(status).None? {
      DeliveryBranch(client, data, chatId, lookup, replyTo, outcome, elapsed, caption);
      var url := Strip(o.value.text.value);
      var run := Route(client, outcome, chatId, url, mode, caption, DeveloperMarkup, elapsed);
      UploadMatchesMode(client, outcome, chatId, url, mode, caption, DeveloperMarkup, elapsed);
      var pre := [FetchMessage(chatId, messageId), ack, status];
      var post := if run.escaped.Some? then [ErrorReply(run.escaped.value)] else [];
      ElementsOf(pre, run.trace, post);
    }
  }

  /** The only reply callback_download makes is the error reply of its
      except branch, and nothing follows it: its own failure is swallowed. */
  lemma ErrorReplyLast(client: Client, data: string, chatId: int, lookup: Lookup, replyTo: Option<Message>,
                       outcome: DownloadOutcome, elapsed: int, caption: string)
    ensures var t := Pressed(client, data, chatId, lookup, replyTo, outcome, elapsed, caption);
      forall i :: 0 <= i < |t| && t[i].Reply? ==>
        i == |t| - 1 && |t[i].text| >= 7 && t[i] == ErrorReply(t[i].text[7..])
  {
    if Accepts(data) {
      var (mode, id) := Parse(data).value;
      var o := Original(lookup, replyTo);
      var ack := Answer(PreparingText(mode), false);
      var status := SendMessage(chatId, ProcessingText);
      if o.Some? && Present(o.value.text) && client(ack).None? && client(status).None? {
        DeliveryBranch(client, data, chatId, lookup, replyTo, outcome, elapsed, caption);
        var url := Strip(o.value.text.value);
        var run := Route(client, outcome, chatId, url, mode, caption, DeveloperMarkup, elapsed);
        DownloadFirst(client, outcome, chatId, url, mode, caption, DeveloperMarkup, elapsed);
        var pre := [FetchMessage(chatId, id), ack, status];
        var post := if run.escaped.Some? then [ErrorReply(run.escaped.value)] else [];
        ElementsOf(pre, run.trace, post);
        if run.escaped.Some? {
          assert ("Error: " + run.escaped.value)[7..] == run.escaped.value;
        }
      } else {
        forall e: string ensures ("Error: " + e)[7..] == e {
        }
      }
    }
  }

  /** Whatever raises inside callback_download, from the not-found alert
      or the acknowledgement to the report of download_and_send, is
      answered with "Error: " and what was raised, as the last call. */
  lemma ExceptionsReported(client: Client, data: string, chatId: int, lookup: Lookup, replyTo: Option<Message>,
                           outcome: DownloadOutcome, elapsed: int, caption: string)
    requires Accepts(data)
    ensures var t := Pressed(client, data, chatId, lookup, replyTo, outcome, elapsed, caption);
      var o := Original(lookup, replyTo);
      var found := o.Some? && Present(o.value.text);
      var mode, id := Parse(data).value.0, Parse(data).value.1;
      var alert := Answer(NotFoundText, true);
      var ack := Answer(PreparingText(mode), false);
      var status := SendMessage(chatId, ProcessingText);
      var url := if found then Strip(o.value.text.value) else "";
      var run := Route(client, outcome, chatId, url, mode, caption, DeveloperMarkup, elapsed);
      && (!found && client(alert).None? ==> t == [FetchMessage(chatId, id), alert])
      && (!found && client(alert).Some? ==> t == [FetchMessage(chatId, id), alert, ErrorReply(client(alert).value)])
      && (found && client(ack).Some? ==> t == [FetchMessage(chatId, id), ack, ErrorReply(client(ack).value)])
      && (found && client(ack).None? && client(status).Some? ==>
            t == [FetchMessage(chatId, id), ack, status, ErrorReply(client(status).value)])
      && (found && client(ack).None? && client(status).None? && run.escaped.Some? ==>
            t[|t| - 1] == ErrorReply(run.escaped.value))
  {
    var o := Original(lookup, replyTo);
    var mode := Parse(data).value.0;
    var ack := Answer(PreparingText(mode), false);
    var status := SendMessage(chatId, ProcessingText);
    if o.Some? && Present(o.value.text) && client(ack).None? && client(status).None? {
      DeliveryBranch(client, data, chatId, lookup, replyTo, outcome, elapsed, caption);
    }
  }

  /** The message the button's message replies to is read only when the
      lookup raises: a lookup that returns, even None, decides alone. */
  lemma ReplyChainOnlyOnRaise(client: Client, data: string, chatId: int, message: Option<Message>,
                              replyTo1: Option<Message>, replyTo2: Option<Message>,
                              outcome: DownloadOutcome, elapsed: int, caption: string)
    ensures Pressed(client, data, chatId, Returned(message), replyTo1, outcome, elapsed, caption)
      == Pressed(client, data, chatId, Returned(message), replyTo2, outcome, elapsed, caption)
  {
  }

  /** Where the downloaded url comes from: the text of the message the
      lookup returned, or, when the lookup raised, the text of the message
      the button's message replies to; stripped either way. */
  lemma DownloadSource(client: Client, data: string, chatId: int, lookup: Lookup, replyTo: Option<Message>,
                       outcome: DownloadOutcome, elapsed: int, caption: string)
    requires Accepts(data)
    ensures var t := Pressed(client, data, chatId, lookup, replyTo, outcome, elapsed, caption);
      var mode := Parse(data).value.0;
      forall i :: 0 <= i < |t| && t[i].Download? ==>
        && (lookup.Returned? ==>
              lookup.message.Some? && Present(lookup.message.value.text)
              && t[i] == Download(Strip(lookup.message.value.text.value), mode))
        && (lookup.LookupRaised? ==>
              replyTo.Some? && Present(replyTo.value.text)
              && t[i] == Download(Strip(replyTo.value.text.value), mode))
  {
    DownloadOfOriginal(client, data, chatId, lookup, replyTo, outcome, elapsed, caption);
  }
}
