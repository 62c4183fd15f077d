# YTB bot core in Dafny

A model of the decision logic of a small Telegram bot. The bot offers the
download of a YouTube video as audio or video. The model covers:

- how `detect_platform` recognises a YouTube link in a message;
- how `format_seconds` renders a duration;
- how `escape_md` escapes text for the Markdown caption;
- how `download_and_send` builds the caption and which Telegram calls it
  makes on each path through its try/except;
- how `handle_text` answers a message;
- how the Audio / Video buttons encode `yt|<mode>|<message id>`, and how the
  callback filter and `callback_download` decode and act on it.

Modules, one file each:

| module | file | models |
|---|---|---|
| `Wrappers` | wrappers.dfy | `Option`; `Present`, Python truthiness of an optional string |
| `Text` | text.dfy | `str()` of an integer, `int()` of a digit string, `str.split` / `str.join` with one separator, `str.strip`, ASCII lower-casing |
| `LinkDetection` | link_detection.dfy | `YOUTUBE_REGEX` and `detect_platform` |
| `Duration` | duration.dfy | `format_seconds`, with a reader that takes its output back |
| `Markdown` | markdown.dfy | `escape_md`: the replace loop, proved equal to a per-character map |
| `Caption` | caption.dfy | the `caption_lines` of `download_and_send` |
| `Effects` | effects.dfy | the Telegram, download and file calls as events; a `Client` says which of them raise |
| `Delivery` | delivery.dfy | `download_and_send`, with `safe_delete` |
| `CallbackData` | callback_data.dfy | the button data, the callback filter, and `split` / `int` decoding |
| `Handlers` | handlers.dfy | `developer_button`, `handle_text`, `callback_download` |

How the model is set up:

- A run of a handler is the sequence of calls it makes.
- A `Client` (a function from call to `Option<string>`) decides which calls
  raise, and with which `str(e)`. So every path through the try/except
  blocks is one choice of client.
- Two calls return values as well:
  - the download result is a `DownloadOutcome`: the file path, whether it
    exists on disk, and the metadata, or the text of the exception;
  - the `get_messages` result is a `Lookup`: the message returned, or
    "raised".
- `escape_md` and `download_and_send` are imperative in the source, and
  they are methods here:
  - `Markdown.EscapeMd` loops over the reserved characters, one
    `str.replace` per character;
  - `Delivery.DownloadAndSend` appends the caption lines one by one, then
    makes its calls step by step.
  
  Each method is proved equal to a function (`Markdown.EscapeText`,
  `Delivery.Deliver`). The properties are lemmas about the functions
  these two call, `Markdown.Escape` and `Delivery.Route`.
- `handle_text` and `callback_download` are pure functions returning their
  calls.
- `callback_download` is `Handlers.OnCallback`, which is `Handlers.Pressed`
  applied to the caption `download_and_send` builds. The lemmas about
  `Pressed` and `Delivery.Route` hold for every caption, so they also hold
  for that one.

Two facts about the code that shape the model:

- The downloaded file is removed only after a successful upload
  (modules/youtube.py:128-131). An upload that raises leaves the file on
  disk. `Delivery.RemovedOnlyAfterUpload` states this.
- The elapsed time is sent in a message of its own
  (modules/youtube.py:133-134), not in the caption.

## Model

| member | source | states |
|---|---|---|
| `Text.NatToString` | modules/youtube.py:157-160 | `str(n)` of a natural number is a non-empty digit string with no leading zero except for 0 |
| `Text.IntToString` | modules/youtube.py:157 | `str(i)` is non-empty, starts with `-` exactly for a negative number, and is digits after that |
| `Text.ParseNat` | main.py:73 | `int()` restricted to ASCII digit strings: it succeeds exactly on a non-empty string of ASCII digits, with their decimal value |
| `Text.ParseNatToString` | main.py:55-73 | `int(str(n)) == n` |
| `Text.DigitsValueOfNatToString` | main.py:55-73 | the digits `str(n)` prints have the value n |
| `Text.NatToStringOfDigits` | main.py:55-73 | a digit string without a leading zero is `str()` of its value |
| `Text.Join` | modules/youtube.py:106 | `"\n".join` for a one-character separator; `JoinSplit` and `SplitJoin` state that it and `Split` undo each other |
| `Text.Split` | main.py:71 | `split` gives at least one part, and no part holds the separator |
| `Text.JoinSplit` | main.py:71 | joining the parts of a split gives the string back |
| `Text.SplitJoin` | modules/youtube.py:106 | splitting a join of separator-free parts gives the parts back |
| `Text.SplitAfterPiece` | main.py:71 | a separator-free piece followed by the separator is split off as one part |
| `Text.LeadingSpaces` | main.py:49 | the count of leading whitespace: all of it is whitespace, and the next character is not |
| `Text.TextEnd` | main.py:49 | the end of s without trailing whitespace: everything after it is whitespace, and the character before it is not |
| `Text.Strip` | main.py:49 | `strip()` is empty exactly for all-whitespace text; otherwise it is the slice between the leading and trailing whitespace, and it starts and ends with non-whitespace |
| `LinkDetection.ContainsLink` | modules/youtube.py:20-24 | the declarative reading of `YOUTUBE_REGEX.search`: host, slash, one of five path shapes and 11 id characters somewhere in the text, in any letter case; `Detect` is proved equal to it |
| `LinkDetection.MatchLiteral` | modules/youtube.py:20-24 | the case-insensitive literal comparison equals the declarative `LiteralAt` |
| `LinkDetection.MatchId` | modules/youtube.py:22 | `[\w\-]{n}` matches exactly when the next n characters are id characters |
| `LinkDetection.PathFromStep` | modules/youtube.py:22 | one of the path shapes from the p-th on starts at j iff the p-th does or one after it does; none does past the last |
| `LinkDetection.MatchPaths` | modules/youtube.py:22 | the path matcher accepts exactly when one of the five path shapes, followed by 11 id characters, starts there |
| `LinkDetection.ShapeParts` | modules/youtube.py:21-22 | a link is the host with its slash, then a path shape, then an id, each at its offset |
| `LinkDetection.MatchHostIsShape` | modules/youtube.py:21-22 | matching a host at a position holds iff one of the five shapes occurs there after that host |
| `LinkDetection.MatchAtIsLinkAt` | modules/youtube.py:20-24 | the matcher at one position equals the declarative "a link starts here" |
| `LinkDetection.LinkFromStep` | modules/youtube.py:33 | a link starts from i on iff one starts at i or from i + 1 on; none starts past the end of the text |
| `LinkDetection.SearchFrom` | modules/youtube.py:33 | trying every start from i is true iff a link starts at some position from i on |
| `LinkDetection.LinkAtFits` | modules/youtube.py:21-22 | a link is at least 20 characters long |
| `LinkDetection.Detect` | modules/youtube.py:30-35 | `detect_platform` returns only "youtube" or None, None on empty text, and "youtube" iff the text contains a link |
| `LinkDetection.LinkAtShift` | modules/youtube.py:33 | a link of t stays a link of u + t + v, shifted by \|u\| |
| `LinkDetection.LinkAtSlice` | modules/youtube.py:33 | a link of a slice is a link of the text, and a link inside the slice is one of the slice |
| `LinkDetection.DetectExtends` | modules/youtube.py:33 | detection survives adding text on either side |
| `LinkDetection.ShapeDetected` | modules/youtube.py:20-24 | any of the five shapes after either host, in any letter case, followed by 11 id characters, is detected wherever it occurs |
| `LinkDetection.ShapeEndsAreText` | modules/youtube.py:20-24 | a link fits in the text and neither starts nor ends with whitespace |
| `LinkDetection.DetectIgnoresSurroundingSpace` | main.py:49-50 | detection on the stripped text equals detection on the text |
| `LinkDetection.StrippedLinkIsLink` | main.py:49-50 | a link in the stripped text is a link in the text |
| `LinkDetection.LinkSurvivesStrip` | main.py:49-50 | a link in the text survives stripping, since neither of its ends is whitespace |
| `LinkDetection.LinkInsideStrip` | main.py:49-50 | a link lies between the text's leading and trailing whitespace |
| `LinkDetection.ShapeInSlice` | modules/youtube.py:33 | a link lying inside [a, b) is a link of the slice t[a..b] |
| `LinkDetection.ShortHostWritten` | modules/youtube.py:20-24 | `youtu.be/` in lower case or in capitals reads as the short host followed by the bare-id path |
| `LinkDetection.ShortLinkDetected` | modules/youtube.py:20-35 | `youtu.be/` in lower case or in capitals, after any scheme or text and followed by any 11 id characters (such as `dQw4w9WgXcQ`), is detected |
| `LinkDetection.NoHostNoLink` | modules/youtube.py:21 | text without "youtu" in any letter case is never detected |
| `Duration.Components` | modules/youtube.py:154-155 | the two floor divmods; `ComponentsRecompose` states what they give |
| `Duration.ComponentsRecompose` | modules/youtube.py:154-155 | the two divmods give h*3600 + m*60 + s == n with 0 <= m, s < 60, also for negative n |
| `Duration.FormatSeconds` | modules/youtube.py:149-160 | the result is "Unknown" exactly when int() fails; otherwise it ends in "s" |
| `Duration.FormatUnder60` | modules/youtube.py:154-160 | for 0 <= n < 60 the result is "{n}s" |
| `Duration.FormatUnderAnHour` | modules/youtube.py:154-159 | for 60 <= n < 3600 the result is "{n/60}m {n%60}s" |
| `Duration.FormatHours` | modules/youtube.py:154-157 | from 3600 on, all three units are printed, zero ones included |
| `Duration.FormatExamplesShort` | modules/youtube.py:149-160 | 0 → "0s", 45 → "45s", 75 → "1m 15s" |
| `Duration.FormatExamplesHours` | modules/youtube.py:149-157 | 3600 → "1h 0m 0s", 3661 → "1h 1m 1s", -1 → "-1h 59m 59s" |
| `Duration.ReadFieldOf` | modules/youtube.py:157-160 | a field such as "15m" reads back as its number and holds no space |
| `Duration.ThreeUnitFields` | modules/youtube.py:157 | the three-unit rendering is the space-join of its three fields |
| `Duration.ReadThreeUnits` | modules/youtube.py:157 | "{h}h {m}m {s}s" reads back as h*3600 + m*60 + s |
| `Duration.ReadTwoUnits` | modules/youtube.py:159 | "{m}m {s}s" reads back as m*60 + s |
| `Duration.ReadOneUnit` | modules/youtube.py:160 | "{s}s" reads back as s |
| `Duration.FormatReadsBack` | modules/youtube.py:149-160 | the rendering of every non-negative duration reads back as that duration, so no two durations print alike |
| `Markdown.Escape` | modules/youtube.py:166-167 | the per-character reading of the replace loop; `EscapeMd` is proved equal to it, and `UnescapeEscape`, `EscapeLength` and `EscapeTwiceDiffers` state its properties |
| `Markdown.EscapeMd` | modules/youtube.py:163-168 | the replace loop returns "" for None or "", and otherwise the per-character escaping |
| `Markdown.ReservedDistinct` | modules/youtube.py:166 | the reserved characters are distinct and do not include the backslash |
| `Markdown.Replace` | modules/youtube.py:167 | `str.replace` of one character by a string; `ReplaceStep` states what one pass does to text already escaped for the earlier characters |
| `Markdown.ReplaceStep` | modules/youtube.py:166-167 | one more `replace` pass escapes one more reserved character and leaves earlier escapes alone |
| `Markdown.EscapeAppend` | modules/youtube.py:166-167 | escaping maps each character on its own: escape(a + b) == escape(a) + escape(b) |
| `Markdown.EscapeLength` | modules/youtube.py:166-167 | the output is as long as the input plus the count of reserved characters |
| `Markdown.EscapeKeepsReserved` | modules/youtube.py:166-167 | the output holds as many reserved characters as the input |
| `Markdown.EscapePlain` | modules/youtube.py:166-167 | text without reserved characters, backslashes included, is copied unchanged |
| `Markdown.EscapeTwiceDiffers` | modules/youtube.py:166-167 | escaping twice differs from escaping once iff the text holds a reserved character |
| `Markdown.UnescapeEscape` | modules/youtube.py:166-167 | removing the inserted backslashes gives the text back, so no two texts escape alike |
| `Markdown.NotReservedHead` | modules/youtube.py:166-167 | an escaped text never starts with a reserved character |
| `Markdown.EscapeExample` | modules/youtube.py:166-167 | "a_\\" escapes to "a\\_\\": the reserved `_` gets a backslash, the backslash is copied |
| `Caption.CaptionLines` | modules/youtube.py:98-105 | the caption lines; `CaptionShape`, `UploaderLineShown` and `DurationLineShown` state their shape |
| `Caption.CaptionText` | modules/youtube.py:106 | the newline join of the lines; `CaptionSplitsIntoLines` states that it splits back into them |
| `Caption.TitleOf` | modules/youtube.py:99 | the title is the metadata title when truthy, else "Unknown title", and is never empty |
| `Caption.Mention` | modules/youtube.py:98 | `requester_mention`; `MentionReadsBack` states that the label unescapes to the first name and the link target reads back as the user id |
| `Caption.MentionReadsBack` | modules/youtube.py:98 | the mention is `[`, the escaped name, `](tg://user?id=`, str(id) and `)`, and both the name and the id read back from it |
| `Caption.AssembleByCase` | modules/youtube.py:99-105 | the lines in each of the four cases of the two optional ones |
| `Caption.LinesByCase` | modules/youtube.py:99-105 | the caption lines of the metadata, case by case |
| `Caption.AssembleShape` | modules/youtube.py:98-106 | for any line contents: one line per optional field present, the title first, the requester and source last, the duration just before the requester and the uploader second |
| `Caption.CaptionShape` | modules/youtube.py:98-106 | 3 to 5 lines: the title line first, then the requester and source lines last, one more line per optional field shown, and the duration line just before the requester |
| `Caption.LineLabels` | modules/youtube.py:99-105 | the title, requester and source lines do not start with "Uploader: " or "Duration: " |
| `Caption.AssembleTagged` | modules/youtube.py:99-105 | a line starts with a label the fixed lines lack iff an optional line does |
| `Caption.UploaderLineShown` | modules/youtube.py:100-101 | an "Uploader: " line is present iff the uploader is truthy |
| `Caption.DurationLineShown` | modules/youtube.py:102-103 | a "Duration: " line is present iff the duration is not None, 0 included |
| `Caption.EscapeKeepsNewlines` | modules/youtube.py:166-167 | escaping adds no line break and removes none |
| `Caption.NoNewlineInNumbers` | modules/youtube.py:98 | a formatted duration and a user id hold no line break |
| `Caption.NoNewlineInLines` | modules/youtube.py:98-105 | fields without line breaks give lines without line breaks |
| `Caption.CaptionSplitsIntoLines` | modules/youtube.py:106 | the newline join of such lines splits back into exactly those lines |
| `Delivery.Attempt` | modules/youtube.py:88-134 | the calls of the try block and the exception that ends it; `AttemptReady`, `MissingFileReported` and `ReadyCases` state its paths |
| `Delivery.Route` | modules/youtube.py:88-138 | the try block, then the except branch; the path lemmas below are stated on it for every caption |
| `Delivery.Deliver` | modules/youtube.py:77-138 | `download_and_send`: `Route` with the caption built from the metadata; `DownloadAndSend` is proved equal to it |
| `Delivery.BuildCaption` | modules/youtube.py:98-106 | the appends build exactly the caption lines, and the caption is their newline join |
| `Delivery.AppendLines` | modules/youtube.py:99-105 | appending the shown lines in order gives the assembled list |
| `Delivery.TryBlock` | modules/youtube.py:89-134 | the try block, step by step, equals its specification `Attempt` |
| `Delivery.AttemptReady` | modules/youtube.py:108-134 | once the file is there, for any caption: download and upload, and when the upload returned also the delete, the removal of the file and "Uploaded in {n}s."; the try block ends at the first call that raises |
| `Delivery.DownloadAndSend` | modules/youtube.py:77-138 | the method's calls and escaped exception equal `Deliver`: try block, then the except branch for what it raised |
| `Delivery.Finish` | modules/youtube.py:136-138 | the except branch of download_and_send; `FinishShape` states what it appends and what escapes |
| `Delivery.FinishShape` | modules/youtube.py:136-138 | the except branch appends the delete and the report of str(e); only that report can raise out |
| `Delivery.DownloadErrorReported` | modules/youtube.py:136-138 | a download that raises gives exactly: download, delete, send str(e) verbatim |
| `Delivery.MissingFileReported` | modules/youtube.py:93-96 | without a file on disk the failure message is sent and the status message deleted, and nothing is uploaded |
| `Delivery.Delivered` | modules/youtube.py:108-134 | the happy path: download, upload, delete, remove, "Uploaded in {n}s.", and nothing escapes |
| `Delivery.ReadyCases` | modules/youtube.py:108-138 | the three endings once the file is ready: the upload raised, the closing message raised, or neither |
| `Delivery.StatusAlwaysDeleted` | modules/youtube.py:93-138 | deleting the processing message is attempted on every path |
| `Delivery.Upload` | modules/youtube.py:108-124 | the audio/video dispatch by mode; `UploadMatchesMode` states which call happens on every path |
| `Delivery.UploadMatchesMode` | modules/youtube.py:108-124 | send_audio happens iff the file is ready and the mode is "audio"; send_video iff it is ready and the mode is anything else |
| `Delivery.RemovedOnlyAfterUpload` | modules/youtube.py:126-131 | the file is removed iff the upload returned, as the fourth call, right after the delete, and it is the downloaded path |
| `Delivery.EscapesOnlyFromReport` | modules/youtube.py:136-138 | an exception escapes only from the report in the except branch, the last call, right after the delete |
| `Delivery.DownloadFirst` | modules/youtube.py:89 | the download is the first call and happens once; there is no reply, answer or lookup |
| `CallbackData.Build` | main.py:55-56 | the button data; `BuildShape` and `BuildAcceptedAndParsed` state its layout and round trip |
| `CallbackData.Accepts` | main.py:68 | the callback filter, on ASCII; `AcceptsIffFields` and `OtherModesRejected` state what it admits |
| `CallbackData.Parse` | main.py:71-73 | an accepted string decodes to its mode field and the value of its digits |
| `CallbackData.AcceptedFields` | main.py:68-71 | an accepted string splits at bars into exactly "yt", the mode and the digits |
| `CallbackData.AcceptsIffFields` | main.py:68-73 | the ASCII filter admits exactly the strings whose fields are "yt", "audio" or "video", and an ASCII digit string, so `int()` cannot fail on them |
| `CallbackData.BuildShape` | main.py:55-56 | the button data is "yt|", the mode, a bar, and the digits of the id |
| `CallbackData.BuildAcceptedAndParsed` | main.py:55-73 | the data of a button passes the filter and decodes to the same mode and id |
| `CallbackData.OtherModesRejected` | main.py:68 | data built with another mode never passes the filter |
| `CallbackData.RebuildIffCanonical` | main.py:68-73 | rebuilding from the decoded values gives the data back iff the id has no leading zero |
| `Handlers.HandleText` | main.py:48-64 | the reply is the choice keyboard iff the text contains a link, else exactly the no-link hint with no keyboard |
| `Handlers.DeveloperMarkup` | main.py:33-36 | `developer_button()`: one row with the single URL button to the developer; it is the markup `Pressed` passes to `Route` for the upload, and its row is also the second row of `ChoiceKeyboard` |
| `Handlers.ChoiceKeyboard` | main.py:53-59 | the choice keyboard; `ChoiceButtons` states what its buttons carry |
| `Handlers.OnCallback` | main.py:69-110 | `callback_download`: `Pressed` with the caption download_and_send builds for the user who pressed |
| `Handlers.Pressed` | main.py:69-110 | `callback_download` for any caption; the lemmas below are stated on it |
| `Handlers.ChoiceButtons` | main.py:53-59 | both choice buttons pass the filter, carry the same id, and decode to "audio" and "video" |
| `Handlers.NotFoundAborts` | main.py:78-86 | no original text: the lookup, then the alert "Original link not found.", and no processing message and no download |
| `Handlers.DeliveryBranch` | main.py:88-110 | once the processing message is out: the calls so far, then download_and_send's, then the error reply if an exception escaped it; the only download is of the stripped text |
| `Handlers.DownloadOfOriginal` | main.py:84-104 | every download is of the original's text stripped of whitespace, in the button's mode, and happens only when that text exists |
| `Handlers.ButtonModeKept` | main.py:55-104 | the message looked up is the button's; after Audio nothing is sent as video, after Video nothing as audio |
| `Handlers.ErrorReplyLast` | main.py:106-110 | the only reply is "Error: " + e, and it is the last call: its own failure is swallowed |
| `Handlers.ErrorReply` | main.py:106-110 | the reply of the outer except branch; `ErrorReplyLast` states that it is the only reply and the last call |
| `Handlers.Caught` | main.py:106-110 | a call inside the outer try, followed by the error reply when it raises; `ExceptionsReported` states the result for every raising call |
| `Handlers.ExceptionsReported` | main.py:69-110 | a raising not-found alert, acknowledgement, processing message or download_and_send is answered by "Error: " and its text, as the last call; an alert that returns ends the handler |
| `Handlers.Original` | main.py:78-82 | the looked-up message, or `reply_to_message` when the lookup raises; `ReplyChainOnlyOnRaise` and `DownloadSource` state the fallback |
| `Handlers.ReplyChainOnlyOnRaise` | main.py:78-82 | a lookup that returns (even None) decides alone: the replied-to message changes nothing |
| `Handlers.DownloadSource` | main.py:78-88 | the url downloaded is the stripped text of the looked-up message, or of the replied-to message when the lookup raised |

## Left out

- The constant arguments `parse_mode="markdown"` of `send_audio` and `send_video` and `supports_streaming=True` of `send_video` (modules/youtube.py:114, 121, 123) are not recorded in the `SendAudio` / `SendVideo` events. The Markdown parse mode is why the caption fields are escaped.
- The metadata is not tied to the url: `_pytube_download` sets `webpage_url` to the url it downloaded (modules/youtube.py:71), so the `Source:` line shows that url escaped, but `Metadata.webpageUrl` is a free input here and no lemma links the `Source:` line to the `Download` url.
- The pytube calls of `_pytube_download` (modules/youtube.py:43-74) are left out: stream choice and download are an external library. Their result is the `DownloadOutcome` input, and their exceptions are its `DownloadRaised` text.
- `run_blocking` and the two-worker thread pool (modules/youtube.py:27, 38-40) are left out, because they exist only for concurrency.
- The Telegram client is not modelled. Its calls are events, and the `Client` decides which of them raise. A call is taken to behave the same each time it is made with the same arguments.
- The filesystem is not modelled: `os.makedirs`, `os.path.exists` (an input flag) and `os.remove` (an event whose failure is swallowed, as the source does).
- The clock is not modelled: `time.time()` is left out, and the elapsed seconds are an input.
- `format_seconds` on floats and strings is left out: `int()` truncation and parsing are Python-specific. The input is an integer or "unparsable".
- Unicode is left out: `\w`, `\d`, `re.IGNORECASE`, `str.strip` and `str()` are modelled on ASCII only.
- The callback filter and `int()` are modelled on ASCII digits with no trailing newline. The real filter at main.py:68 admits more: `\d` matches any Unicode decimal digit and `$` matches before a final newline, so it admits data such as `"yt|audio|7\n"` and `"yt|audio|٧"`, and `int()` turns both into 7. `int()` also accepts forms such as `"+7"`, `" 7"` and `"1_0"`, which the filter never admits. The model's filter rejects the first two, so it does not cover callback data sent other than through these buttons.
- Environment and client set-up, the start/help reply, `service_cleanup` and the no-op `register_youtube_handlers` (main.py:18-31, 38-44, 112-124; modules/youtube.py:171-172) are left out, because they hold no decision logic.
- `safe_delete` takes its message to be truthy, as every caller passes the message just sent.
- Which message a reply answers is not recorded: `Reply` does not say whether it goes to the user's message or to the button's.
- `Handlers.OnCallback`: its lemmas are stated on `Handlers.Pressed` for every caption, not on `OnCallback` itself. `OnCallback` is `Pressed` with the caption `Delivery.CaptionFor` builds.
