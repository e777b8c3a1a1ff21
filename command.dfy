/** is_safe_format_id and generate_command (app.py:84-112): the command line offered to the user. */
module Command {
  import opened Wrappers

  /** The regular-expression character class `[0-9A-Za-z_+-]`: ASCII digits and letters, `_`, `+` and `-`. */
  predicate SafeChar(c: char) {
    || ('0' <= c <= '9')
    || ('A' <= c <= 'Z')
    || ('a' <= c <= 'z')
    || c == '_' || c == '+' || c == '-'
  }

  /**
   * `re.fullmatch(r"[0-9A-Za-z_+-]+", s)`: one class character followed by the match of the rest.
   * It holds exactly when s is non-empty and every character is in the class.
   */
  function IsSafeFormatId(s: string): (ok: bool)
    ensures ok <==> |s| > 0 && forall i :: 0 <= i < |s| ==> SafeChar(s[i])
  {
    |s| > 0 && SafeChar(s[0]) && (|s| == 1 || IsSafeFormatId(s[1..]))
  }

  /** Characters a POSIX shell treats specially, inside or outside double quotes, plus whitespace. */
  const ShellSpecial: set<char> :=
    {'"', '\'', '`', '$', '\\', ';', '&', '|', '<', '>', '(', ')', '{', '}', '[', ']',
     '*', '?', '!', '#', '~', '=', '%', ' ', '\t', '\n', '\r'}

  /** A format id that passes the whitelist holds no quote, whitespace, `;` or other shell-special character. */
  lemma SafeIdHasNoShellSpecial(s: string)
    requires IsSafeFormatId(s)
    ensures forall i :: 0 <= i < |s| ==> s[i] !in ShellSpecial
  {
  }

  const WatchPrefix := "https://www.youtube.com/watch?v="

  /** The watch-page URL of a video: the fixed prefix followed by the id, unchanged. */
  function WatchUrl(videoId: string): (url: string)
    ensures WatchPrefix <= url && url[|WatchPrefix|..] == videoId
  {
    WatchPrefix + videoId
  }

  /** `if format_id:` -- a missing parameter and the empty string both count as not given. */
  predicate FormatIdGiven(formatId: Option<string>): (given: bool)
    ensures given <==> formatId != None && formatId != Some("")
  {
    formatId.Some? && formatId.value != ""
  }

  datatype CommandDescriptor = CommandDescriptor(command: string, note: string)

  /** The message of the ValueError raised for a format id that fails the whitelist. */
  const InvalidFormatId := "invalid format_id"

  /**
   * generate_command: a given format id must pass the whitelist (otherwise the call raises and
   * no command is produced); a given, safe id is used verbatim; otherwise `type_ == "audio"`
   * selects the audio template and anything else the best-quality template.
   */
  function GenerateCommand(videoId: string, mediaType: string, formatId: Option<string>)
    : (r: Result<CommandDescriptor, string>)
    ensures r.Failure? <==> FormatIdGiven(formatId) && !IsSafeFormatId(formatId.value)
    ensures r.Failure? ==> r.error == InvalidFormatId
  {
    var url := WatchUrl(videoId);
    if FormatIdGiven(formatId) then
      if !IsSafeFormatId(formatId.value) then Failure(InvalidFormatId)
      else Success(CommandDescriptor("yt-dlp -f \"" + formatId.value + "\" " + url, "custom format_id"))
    else if mediaType == "audio" then
      Success(CommandDescriptor(
        "yt-dlp -f \"bestaudio\" " + "--extract-audio --audio-format mp3 " + url, "audio only"))
    else
      Success(CommandDescriptor("yt-dlp -f \"bestvideo+bestaudio/best\" " + url, "best quality (video+audio)"))
  }

  /** The opening of every generated command, up to and including the quote that opens the `-f` argument. */
  const SelectorOpen := "yt-dlp -f \""

  /** The text before the first double quote. */
  function UpToQuote(s: string): (w: string)
    ensures w <= s && '"' !in w
    ensures |w| < |s| ==> s[|w|] == '"'
  {
    if s == [] || s[0] == '"' then [] else [s[0]] + UpToQuote(s[1..])
  }

  /**
   * The `-f` argument of a command: the text between its opening quote and the next quote. A shell
   * takes this text literally when it also holds no `$`, backquote or backslash (see ShellSpecial).
   */
  function QuotedSelector(command: string): (r: Option<string>)
    ensures r.Some? <==> SelectorOpen <= command
  {
    if SelectorOpen <= command then Some(UpToQuote(command[|SelectorOpen|..])) else None
  }

  /** A quote-free prefix followed by a quote is read back exactly. */
  lemma {:induction false} UpToQuoteStops(w: string, rest: string)
    requires forall i :: 0 <= i < |w| ==> w[i] != '"'
    ensures UpToQuote(w + "\"" + rest) == w
  {
    if w != [] {
      assert (w + "\"" + rest)[1..] == w[1..] + "\"" + rest;
      UpToQuoteStops(w[1..], rest);
    }
  }

  /** The format selector a request asks for. */
  function RequestedSelector(mediaType: string, formatId: Option<string>): string {
    if FormatIdGiven(formatId) then formatId.value
    else if mediaType == "audio" then "bestaudio"
    else "bestvideo+bestaudio/best"
  }

  /** A command opened by SelectorOpen and a quote-free selector followed by a quote reads back that selector. */
  lemma QuotedSelectorReads(sel: string, tail: string)
    requires forall i :: 0 <= i < |sel| ==> sel[i] != '"'
    ensures QuotedSelector(SelectorOpen + sel + "\"" + tail) == Some(sel)
  {
    var command := SelectorOpen + sel + "\"" + tail;
    assert command[..|SelectorOpen|] == SelectorOpen;
    assert command[|SelectorOpen|..] == sel + "\"" + tail;
    UpToQuoteStops(sel, tail);
  }

  /**
   * Every generated command selects, as the shell will read it, exactly the requested format:
   * a safe format id cannot close the quotes early, so it is the whole `-f` argument.
   */
  lemma CommandSelectsRequested(videoId: string, mediaType: string, formatId: Option<string>)
    requires GenerateCommand(videoId, mediaType, formatId).Success?
    ensures QuotedSelector(GenerateCommand(videoId, mediaType, formatId).value.command)
      == Some(RequestedSelector(mediaType, formatId))
    ensures var sel := RequestedSelector(mediaType, formatId);
      forall i :: 0 <= i < |sel| ==> sel[i] !in ShellSpecial
  {
    SelectorIsInert(mediaType, formatId);
    var url := WatchUrl(videoId);
    if FormatIdGiven(formatId) {
      QuotedSelectorReads(formatId.value, " " + url);
      assert "yt-dlp -f \"" + formatId.value + "\" " + url == SelectorOpen + formatId.value + "\"" + (" " + url);
    } else if mediaType == "audio" {
      AudioTemplateSelects(url);
    } else {
      DefaultTemplateSelects(url);
    }
  }

  lemma AudioTemplateSelects(url: string)
    ensures QuotedSelector("yt-dlp -f \"bestaudio\" " + "--extract-audio --audio-format mp3 " + url) == Some("bestaudio")
  {
    var head, flags := "yt-dlp -f \"bestaudio\" ", "--extract-audio --audio-format mp3 ";
    assert head == SelectorOpen + "bestaudio" + "\" ";
    var tail := " " + flags + url;
    QuotedSelectorReads("bestaudio", tail);
    calc {
      head + flags + url;
      (SelectorOpen + "bestaudio" + "\" ") + flags + url;
      { assert "\" " == "\"" + " "; }
      SelectorOpen + "bestaudio" + "\"" + tail;
    }
  }

  lemma DefaultTemplateSelects(url: string)
    ensures QuotedSelector("yt-dlp -f \"bestvideo+bestaudio/best\" " + url) == Some("bestvideo+bestaudio/best")
  {
    QuotedSelectorReads("bestvideo+bestaudio/best", " " + url);
    assert "yt-dlp -f \"bestvideo+bestaudio/best\" " == SelectorOpen + "bestvideo+bestaudio/best" + "\"" + " ";
    assert "yt-dlp -f \"bestvideo+bestaudio/best\" " + url
      == SelectorOpen + "bestvideo+bestaudio/best" + "\"" + (" " + url);
  }

  /**
   * The whole command of every successful call: `yt-dlp -f "<selector>" `, then the audio extraction
   * flags for the audio template only, then the watch-page URL.
   */
  lemma CommandShape(videoId: string, mediaType: string, formatId: Option<string>)
    requires GenerateCommand(videoId, mediaType, formatId).Success?
    ensures GenerateCommand(videoId, mediaType, formatId).value.command
      == SelectorOpen + RequestedSelector(mediaType, formatId) + "\" "
         + (if !FormatIdGiven(formatId) && mediaType == "audio" then "--extract-audio --audio-format mp3 " else "")
         + WatchUrl(videoId)
  {
    var url := WatchUrl(videoId);
    if FormatIdGiven(formatId) {
      assert "yt-dlp -f \"" + formatId.value + "\" " + url == SelectorOpen + formatId.value + "\" " + "" + url;
    } else if mediaType == "audio" {
      AudioTemplateShape(url);
    } else {
      DefaultTemplateShape(url);
    }
  }

  lemma AudioTemplateShape(url: string)
    ensures "yt-dlp -f \"bestaudio\" " + "--extract-audio --audio-format mp3 " + url
      == SelectorOpen + "bestaudio" + "\" " + "--extract-audio --audio-format mp3 " + url
  {
    assert "yt-dlp -f \"bestaudio\" " == SelectorOpen + "bestaudio" + "\" ";
  }

  lemma DefaultTemplateShape(url: string)
    ensures "yt-dlp -f \"bestvideo+bestaudio/best\" " + url == SelectorOpen + "bestvideo+bestaudio/best" + "\" " + "" + url
  {
    assert "yt-dlp -f \"bestvideo+bestaudio/best\" " == SelectorOpen + "bestvideo+bestaudio/best" + "\" ";
  }

  /** A character of a template selector: a class character or `/`. */
  predicate TemplateChar(c: char) {
    SafeChar(c) || c == '/'
  }

  /**
   * The selector of a call that succeeds holds no shell-special character: a given id passed the
   * whitelist, and the two template selectors are letters, `+` and `/`.
   */
  lemma SelectorIsInert(mediaType: string, formatId: Option<string>)
    requires !FormatIdGiven(formatId) || IsSafeFormatId(formatId.value)
    ensures var sel := RequestedSelector(mediaType, formatId);
      forall i :: 0 <= i < |sel| ==> sel[i] !in ShellSpecial
  {
    var sel := RequestedSelector(mediaType, formatId);
    if FormatIdGiven(formatId) {
      SafeIdHasNoShellSpecial(formatId.value);
    } else {
      assert forall i :: 0 <= i < |sel| ==> TemplateChar(sel[i]);
      forall i | 0 <= i < |sel| ensures sel[i] !in ShellSpecial {
        assert TemplateChar(sel[i]);
      }
    }
  }

  /** Every generated command ends with the watch-page URL of the requested video. */
  lemma CommandEndsWithUrl(videoId: string, mediaType: string, formatId: Option<string>)
    requires GenerateCommand(videoId, mediaType, formatId).Success?
    ensures var command := GenerateCommand(videoId, mediaType, formatId).value.command;
      |command| >= |WatchUrl(videoId)| && command[|command| - |WatchUrl(videoId)|..] == WatchUrl(videoId)
  {
  }

  /** The note names the template chosen, in the order the source tests: format id, then audio, then the default. */
  lemma NoteNamesTemplate(videoId: string, mediaType: string, formatId: Option<string>)
    requires GenerateCommand(videoId, mediaType, formatId).Success?
    ensures GenerateCommand(videoId, mediaType, formatId).value.note ==
      if FormatIdGiven(formatId) then "custom format_id"
      else if mediaType == "audio" then "audio only"
      else "best quality (video+audio)"
  {
  }

  /**
   * A non-empty format id decides the outcome whatever the media type, whether it passes the
   * whitelist (custom command) or not (the error); the empty id is treated as no id.
   */
  lemma FormatIdOverridesType(videoId: string, type1: string, type2: string, formatId: string)
    requires formatId != ""
    ensures GenerateCommand(videoId, type1, Some(formatId)) == GenerateCommand(videoId, type2, Some(formatId))
    ensures GenerateCommand(videoId, type1, Some("")) == GenerateCommand(videoId, type1, None)
  {
  }

  /** `format_id="144p60"` yields `-f "144p60"` with the custom note. */
  lemma CustomFormatExample(videoId: string)
    ensures GenerateCommand(videoId, "video", Some("144p60"))
      == Success(CommandDescriptor("yt-dlp -f \"144p60\" " + WatchUrl(videoId), "custom format_id"))
  {
    assert IsSafeFormatId("144p60");
    assert "yt-dlp -f \"" + "144p60" + "\" " == "yt-dlp -f \"144p60\" ";
  }

  /** `format_id="bad;id"` is refused; so are an embedded quote and a space. */
  lemma UnsafeFormatIdsRejected(videoId: string, mediaType: string)
    ensures GenerateCommand(videoId, mediaType, Some("bad;id")) == Failure(InvalidFormatId)
    ensures GenerateCommand(videoId, mediaType, Some("a\"b")).Failure?
    ensures GenerateCommand(videoId, mediaType, Some("a b")).Failure?
  {
    assert !SafeChar(("bad;id")[3]);
    assert !SafeChar(("a\"b")[1]);
    assert !SafeChar(("a b")[1]);
  }

  /**
   * The video id is not screened: it reaches the command unquoted, so a `;` in it survives into
   * the command line. Only the format id is guarded by the whitelist.
   */
  lemma VideoIdNotScreened()
    ensures GenerateCommand("x;y", "video", None).Success?
    ensures ';' in GenerateCommand("x;y", "video", None).value.command
  {
    var command := GenerateCommand("x;y", "video", None).value.command;
    assert command[|command| - 2] == ';';
  }
}
