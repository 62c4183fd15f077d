/** The caption sent with a downloaded file (download_and_send, the lines
    collected in caption_lines and joined with newlines). */
module Caption {

  import opened Wrappers
  import opened Text
  import opened Duration
  import opened Markdown

  /** What the download reports about the video. A missing key or a None
      value is None; the duration is yt.length, whatever int() makes of it. */
  datatype Metadata = Metadata(
    title: Option<string>,
    uploader: Option<string>,
    duration: Option<Seconds>,
    webpageUrl: Option<string>)

  /** The Telegram user who pressed the button. */
  datatype User = User(id: int, firstName: Option<string>)

  const UnknownTitle: string := "Unknown title"

  /** `metadata.get('title') or 'Unknown title'`: an empty title counts as
      missing too. */
  function TitleOf(meta: Metadata): (t: string)
    ensures t != []
  {
    if Present(meta.title) then meta.title.value else UnknownTitle
  }

  /** A Markdown link to the user's profile, labelled with the escaped name. */
  function Mention(u: User): string {
    "[" + EscapeText(u.firstName) + "](tg://user?id=" + IntToString(u.id) + ")"
  }

  function TitleLine(meta: Metadata): string {
    "**" + Escape(TitleOf(meta)) + "**"
  }

  function UploaderLine(uploader: string): string {
    "Uploader: " + Escape(uploader)
  }

  function DurationLine(d: Seconds): string {
    "Duration: " + FormatSeconds(d)
  }

  function RequesterLine(u: User): string {
    "Requested by: " + Mention(u)
  }

  function SourceLine(meta: Metadata): string {
    "Source: " + EscapeText(meta.webpageUrl)
  }

  /** The caption lines in their fixed order: the title, the optional
      uploader and duration lines, then the requester and the source. */
  function Assemble(title: string, uploader: Option<string>, duration: Option<string>,
                    requester: string, source: string): seq<string> {
    [title]
    + (if uploader.Some? then [uploader.value] else [])
    + (if duration.Some? then [duration.value] else [])
    + [requester, source]
  }

  /** The caption lines of download_and_send: the uploader line only when
      the uploader is truthy, the duration line whenever the duration is not
      None (0 included). */
  function CaptionLines(meta: Metadata, requester: User): seq<string> {
    Assemble(
      TitleLine(meta),
      if Present(meta.uploader) then Some(UploaderLine(meta.uploader.value)) else None,
      if meta.duration.Some? then Some(DurationLine(meta.duration.value)) else None,
      RequesterLine(requester),
      SourceLine(meta))
  }

  function CaptionText(meta: Metadata, requester: User): string {
    Join(CaptionLines(meta, requester), '\n')
  }

  predicate StartsWith(line: string, prefix: string) {
    |prefix| <= |line| && line[..|prefix|] == prefix
  }

  /** The assembled lines in each of the four cases of the optional ones. */
  lemma AssembleByCase(t: string, u: Option<string>, d: Option<string>, r: string, src: string)
    ensures Assemble(t, u, d, r, src) ==
      if u.Some? && d.Some? then [t, u.value, d.value, r, src]
      else if u.Some? then [t, u.value, r, src]
      else if d.Some? then [t, d.value, r, src]
      else [t, r, src]
  {
    var empty: seq<string> := [];
    if u.Some? {
      if d.Some? {
        assert [t] + [u.value] + [d.value] + [r, src] == [t, u.value, d.value, r, src];
      } else {
        assert [t] + [u.value] + empty == [t, u.value];
        assert [t, u.value] + [r, src] == [t, u.value, r, src];
      }
    } else {
      assert [t] + empty == [t];
      if d.Some? {
        assert [t] + [d.value] + [r, src] == [t, d.value, r, src];
      } else {
        assert [t] + empty + [r, src] == [t, r, src];
      }
    }
  }

  lemma LinesByCase(meta: Metadata, requester: User)
    ensures var t, r, src := TitleLine(meta), RequesterLine(requester), SourceLine(meta);
      CaptionLines(meta, requester) ==
        if Present(meta.uploader) && meta.duration.Some? then
          [t, UploaderLine(meta.uploader.value), DurationLine(meta.duration.value), r, src]
        else if Present(meta.uploader) then [t, UploaderLine(meta.uploader.value), r, src]
        else if meta.duration.Some? then [t, DurationLine(meta.duration.value), r, src]
        else [t, r, src]
  {
    AssembleByCase(
      TitleLine(meta),
      if Present(meta.uploader) then Some(UploaderLine(meta.uploader.value)) else None,
      if meta.duration.Some? then Some(DurationLine(meta.duration.value)) else None,
      RequesterLine(requester),
      SourceLine(meta));
  }

  /** The shape of the assembled lines, for any line contents. */
  lemma AssembleShape(t: string, u: Option<string>, d: Option<string>, r: string, src: string)
    ensures var lines := Assemble(t, u, d, r, src);
      && |lines| == 3 + (if u.Some? then 1 else 0) + (if d.Some? then 1 else 0)
      && lines[0] == t && lines[|lines| - 2] == r && lines[|lines| - 1] == src
      && (d.Some? ==> lines[|lines| - 3] == d.value)
      && (u.Some? ==> lines[1] == u.value)
  {
    AssembleByCase(t, u, d, r, src);
  }

  /** The shape of the caption: three to five lines, the title first, the
      requester and the source last, one more line for each optional field
      that is there, and the duration (when shown) just before the requester. */
  lemma CaptionShape(meta: Metadata, requester: User)
    ensures var lines := CaptionLines(meta, requester);
      && |lines| == 3 + (if Present(meta.uploader) then 1 else 0) + (if meta.duration.Some? then 1 else 0)
      && 3 <= |lines| <= 5
      && lines[0] == "**" + Escape(TitleOf(meta)) + "**"
      && lines[|lines| - 2] == "Requested by: " + Mention(requester)
      && lines[|lines| - 1] == "Source: " + EscapeText(meta.webpageUrl)
      && (meta.duration.Some? ==> lines[|lines| - 3] == "Duration: " + FormatSeconds(meta.duration.value))
      && (Present(meta.uploader) ==> lines[1] == "Uploader: " + Escape(meta.uploader.value))
  {
    var u := if Present(meta.uploader) then Some(UploaderLine(meta.uploader.value)) else None;
    var d := if meta.duration.Some? then Some(DurationLine(meta.duration.value)) else None;
    assert CaptionLines(meta, requester) == Assemble(TitleLine(meta), u, d, RequesterLine(requester), SourceLine(meta));
    AssembleShape(TitleLine(meta), u, d, RequesterLine(requester), SourceLine(meta));
  }

  lemma {:induction false} FirstCharDiffers(line: string, prefix: string)
    requires |line| > 0 && |prefix| > 0 && line[0] != prefix[0]
    ensures !StartsWith(line, prefix)
  {
    if |prefix| <= |line| {
      assert line[..|prefix|][0] == line[0];
    }
  }

  lemma {:induction false} LabelStarts(tag: string, rest: string)
    ensures StartsWith(tag + rest, tag)
  {
    assert (tag + rest)[..|tag|] == tag;
  }

  /** Only the uploader and duration lines start with their labels. */
  lemma LineLabels(meta: Metadata, requester: User)
    ensures !StartsWith(TitleLine(meta), "Uploader: ") && !StartsWith(TitleLine(meta), "Duration: ")
    ensures !StartsWith(RequesterLine(requester), "Uploader: ")
    ensures !StartsWith(RequesterLine(requester), "Duration: ")
    ensures !StartsWith(SourceLine(meta), "Uploader: ") && !StartsWith(SourceLine(meta), "Duration: ")
  {
    var title, req, src := TitleLine(meta), RequesterLine(requester), SourceLine(meta);
    assert title[0] == '*' && req[0] == 'R' && src[0] == 'S';
    FirstCharDiffers(title, "Uploader: ");
    FirstCharDiffers(title, "Duration: ");
    FirstCharDiffers(req, "Uploader: ");
    FirstCharDiffers(req, "Duration: ");
    FirstCharDiffers(src, "Uploader: ");
    FirstCharDiffers(src, "Duration: ");
  }

  lemma DurationLabel(d: Seconds)
    ensures !StartsWith(DurationLine(d), "Uploader: ") && StartsWith(DurationLine(d), "Duration: ")
  {
    assert DurationLine(d)[0] == 'D';
    FirstCharDiffers(DurationLine(d), "Uploader: ");
    LabelStarts("Duration: ", FormatSeconds(d));
  }

  lemma UploaderLabel(u: string)
    ensures StartsWith(UploaderLine(u), "Uploader: ") && !StartsWith(UploaderLine(u), "Duration: ")
  {
    assert UploaderLine(u)[0] == 'U';
    FirstCharDiffers(UploaderLine(u), "Duration: ");
    LabelStarts("Uploader: ", Escape(u));
  }

  /** Which assembled lines start with a tag that the fixed lines do not. */
  lemma AssembleTagged(t: string, u: Option<string>, d: Option<string>, r: string, src: string, tag: string)
    requires !StartsWith(t, tag) && !StartsWith(r, tag) && !StartsWith(src, tag)
    ensures var lines := Assemble(t, u, d, r, src);
      (exists i :: 0 <= i < |lines| && StartsWith(lines[i], tag))
      <==> (u.Some? && StartsWith(u.value, tag)) || (d.Some? && StartsWith(d.value, tag))
  {
    AssembleByCase(t, u, d, r, src);
    var lines := Assemble(t, u, d, r, src);
    if u.Some? && StartsWith(u.value, tag) {
      assert StartsWith(lines[1], tag);
    }
    if d.Some? && StartsWith(d.value, tag) {
      assert StartsWith(lines[|lines| - 3], tag);
    }
  }

  /** An "Uploader:" line is there iff the uploader is truthy. */
  lemma UploaderLineShown(meta: Metadata, requester: User)
    ensures var lines := CaptionLines(meta, requester);
      (exists i :: 0 <= i < |lines| && StartsWith(lines[i], "Uploader: ")) <==> Present(meta.uploader)
  {
    LineLabels(meta, requester);
    var u := if Present(meta.uploader) then Some(UploaderLine(meta.uploader.value)) else None;
    var d := if meta.duration.Some? then Some(DurationLine(meta.duration.value)) else None;
    if u.Some? { UploaderLabel(meta.uploader.value); }
    if d.Some? { DurationLabel(meta.duration.value); }
    assert CaptionLines(meta, requester) == Assemble(TitleLine(meta), u, d, RequesterLine(requester), SourceLine(meta));
    AssembleTagged(TitleLine(meta), u, d, RequesterLine(requester), SourceLine(meta), "Uploader: ");
  }

  /** A "Duration:" line is there iff the duration is not None (0 seconds
      included). */
  lemma DurationLineShown(meta: Metadata, requester: User)
    ensures var lines := CaptionLines(meta, requester);
      (exists i :: 0 <= i < |lines| && StartsWith(lines[i], "Duration: ")) <==> meta.duration.Some?
  {
    LineLabels(meta, requester);
    var u := if Present(meta.uploader) then Some(UploaderLine(meta.uploader.value)) else None;
    var d := if meta.duration.Some? then Some(DurationLine(meta.duration.value)) else None;
    if u.Some? { UploaderLabel(meta.uploader.value); }
    if d.Some? { DurationLabel(meta.duration.value); }
    assert CaptionLines(meta, requester) == Assemble(TitleLine(meta), u, d, RequesterLine(requester), SourceLine(meta));
    AssembleTagged(TitleLine(meta), u, d, RequesterLine(requester), SourceLine(meta), "Duration: ");
  }

  /** The pieces of a five-part concatenation, recovered by slicing. */
  lemma PiecesOf(a: string, b: string, c: string, d: string, e: string)
    ensures var m := a + b + c + d + e;
      && m[..|a|] == a && m[|a|..|a| + |b|] == b && m[|a| + |b|..|a| + |b| + |c|] == c
      && m[|a| + |b| + |c|..|m| - |e|] == d && m[|m| - |e|..] == e
  {
    var m := a + b + c + d + e;
    assert m == (((a + b) + c) + d) + e;
  }

  /** The mention gives back whom it names: the label between the brackets
      unescapes to the first name (the empty text when there is none), and
      the link target reads back as the user id, sign included. */
  lemma MentionReadsBack(u: User)
    ensures var m := Mention(u);
      var shown := EscapeText(u.firstName);
      var target := "](tg://user?id=";
      var idEnd := |m| - 1;
      var idStart := 1 + |shown| + |target|;
      && 0 < 1 + |shown| < idStart < idEnd
      && m[0] == '[' && m[1 + |shown|..idStart] == target && m[idEnd] == ')'
      && Unescape(m[1..1 + |shown|]) == (if u.firstName.Some? then u.firstName.value else "")
      && (u.id >= 0 ==> ParseNat(m[idStart..idEnd]) == Some(u.id))
      && (u.id < 0 ==> m[idStart] == '-' && ParseNat(m[idStart + 1..idEnd]) == Some(-u.id))
  {
    var shown := EscapeText(u.firstName);
    var digits := IntToString(u.id);
    var m := Mention(u);
    PiecesOf("[", shown, "](tg://user?id=", digits, ")");
    assert m[1..1 + |shown|] == shown;
    assert m[1 + |shown| + 15..|m| - 1] == digits;
    assert Unescape(shown) == (if u.firstName.Some? then u.firstName.value else "") by {
      if u.firstName.Some? {
        UnescapeEscape(u.firstName.value);
      }
    }
    if u.id >= 0 {
      ParseNatToString(u.id);
    } else {
      ParseNatToString(-u.id);
      assert digits[1..] == NatToString(-u.id);
    }
  }

  // ---------------------------------------------------------------------
  // The joined caption splits back into its lines

  lemma {:induction false} EscapeKeepsNewlines(s: string)
    ensures '\n' in Escape(s) <==> '\n' in s
  {
    if s != [] {
      EscapeKeepsNewlines(s[1..]);
      assert !IsReserved('\n');
      EscapeAppend([s[0]], s[1..]);
      assert [s[0]] + s[1..] == s;
    }
  }

  lemma NoNewlineInNumbers(d: Seconds, i: int)
    ensures '\n' !in FormatSeconds(d)
    ensures '\n' !in IntToString(i)
  {
    var r := FormatSeconds(d);
    if d.Whole? {
      var (h, m, s) := Components(d.n);
      assert forall k :: 0 <= k < |NatToString(m)| ==> NatToString(m)[k] != '\n';
      assert forall k :: 0 <= k < |NatToString(s)| ==> NatToString(s)[k] != '\n';
      assert forall k :: 0 <= k < |IntToString(h)| ==> IntToString(h)[k] != '\n';
    }
    assert forall k :: 0 <= k < |IntToString(i)| ==> IntToString(i)[k] != '\n';
  }

  lemma {:induction false} NoNewlineIn3(a: string, b: string, c: string)
    requires '\n' !in a && '\n' !in b && '\n' !in c
    ensures '\n' !in a + b + c
  {
  }

  /** The fixed parts of the lines hold no line break. */
  lemma LabelsHaveNoNewline()
    ensures '\n' !in "**" && '\n' !in "" && '\n' !in "Uploader: " && '\n' !in "Duration: "
    ensures '\n' !in "Requested by: " && '\n' !in "Source: "
    ensures '\n' !in "[" && '\n' !in "](tg://user?id=" && '\n' !in ")"
  {
  }

  lemma EscapedNoNewline(prefix: string, x: string)
    requires '\n' !in prefix && '\n' !in x
    ensures '\n' !in prefix + Escape(x)
  {
    EscapeKeepsNewlines(x);
    LabelsHaveNoNewline();
    NoNewlineIn3(prefix, Escape(x), "");
    assert prefix + Escape(x) + "" == prefix + Escape(x);
  }

  lemma TitleNoNewline(meta: Metadata)
    requires meta.title.Some? ==> '\n' !in meta.title.value
    ensures '\n' !in TitleLine(meta)
  {
    LabelsHaveNoNewline();
    var title := TitleOf(meta);
    if !Present(meta.title) {
      assert forall k :: 0 <= k < |UnknownTitle| ==> UnknownTitle[k] != '\n';
    }
    assert '\n' !in title;
    EscapeKeepsNewlines(title);
    NoNewlineIn3("**", Escape(title), "**");
  }

  lemma SourceNoNewline(meta: Metadata)
    requires meta.webpageUrl.Some? ==> '\n' !in meta.webpageUrl.value
    ensures '\n' !in SourceLine(meta)
  {
    LabelsHaveNoNewline();
    if meta.webpageUrl.Some? {
      EscapedNoNewline("Source: ", meta.webpageUrl.value);
    } else {
      assert SourceLine(meta) == "Source: ";
    }
  }

  lemma RequesterNoNewline(requester: User)
    requires requester.firstName.Some? ==> '\n' !in requester.firstName.value
    ensures '\n' !in RequesterLine(requester)
  {
    LabelsHaveNoNewline();
    if requester.firstName.Some? { EscapeKeepsNewlines(requester.firstName.value); }
    NoNewlineInNumbers(Unparsable, requester.id);
    var name, id := EscapeText(requester.firstName), IntToString(requester.id);
    NoNewlineIn3("[", name, "](tg://user?id=");
    NoNewlineIn3("[" + name + "](tg://user?id=", id, ")");
    NoNewlineIn3("Requested by: ", Mention(requester), "");
    assert RequesterLine(requester) == "Requested by: " + Mention(requester) + "";
  }

  lemma DurationNoNewline(d: Seconds)
    ensures '\n' !in DurationLine(d)
  {
    LabelsHaveNoNewline();
    NoNewlineInNumbers(d, 0);
    NoNewlineIn3("Duration: ", FormatSeconds(d), "");
    assert DurationLine(d) == "Duration: " + FormatSeconds(d) + "";
  }

  lemma NoNewlineInLines(meta: Metadata, requester: User)
    requires meta.title.Some? ==> '\n' !in meta.title.value
    requires meta.uploader.Some? ==> '\n' !in meta.uploader.value
    requires meta.webpageUrl.Some? ==> '\n' !in meta.webpageUrl.value
    requires requester.firstName.Some? ==> '\n' !in requester.firstName.value
    ensures '\n' !in TitleLine(meta) && '\n' !in RequesterLine(requester) && '\n' !in SourceLine(meta)
    ensures meta.uploader.Some? ==> '\n' !in UploaderLine(meta.uploader.value)
    ensures meta.duration.Some? ==> '\n' !in DurationLine(meta.duration.value)
  {
    LabelsHaveNoNewline();
    TitleNoNewline(meta);
    SourceNoNewline(meta);
    RequesterNoNewline(requester);
    if meta.uploader.Some? { EscapedNoNewline("Uploader: ", meta.uploader.value); }
    if meta.duration.Some? { DurationNoNewline(meta.duration.value); }
  }

  lemma SplitAssembled(t: string, u: Option<string>, d: Option<string>, r: string, src: string)
    requires '\n' !in t && '\n' !in r && '\n' !in src
    requires u.Some? ==> '\n' !in u.value
    requires d.Some? ==> '\n' !in d.value
    ensures Split(Join(Assemble(t, u, d, r, src), '\n'), '\n') == Assemble(t, u, d, r, src)
  {
    AssembleByCase(t, u, d, r, src);
    SplitJoin(Assemble(t, u, d, r, src), '\n');
  }

  /** Fields without line breaks give a caption whose lines the join keeps
      apart: splitting it at newlines gives the lines back. */
  lemma CaptionSplitsIntoLines(meta: Metadata, requester: User)
    requires meta.title.Some? ==> '\n' !in meta.title.value
    requires meta.uploader.Some? ==> '\n' !in meta.uploader.value
    requires meta.webpageUrl.Some? ==> '\n' !in meta.webpageUrl.value
    requires requester.firstName.Some? ==> '\n' !in requester.firstName.value
    ensures Split(CaptionText(meta, requester), '\n') == CaptionLines(meta, requester)
  {
    NoNewlineInLines(meta, requester);
    SplitAssembled(
      TitleLine(meta),
      if Present(meta.uploader) then Some(UploaderLine(meta.uploader.value)) else None,
      if meta.duration.Some? then Some(DurationLine(meta.duration.value)) else None,
      RequesterLine(requester),
      SourceLine(meta));
  }
}
