/** What both revisions of the formatting provider share: the document and
    environment they read, the formatter's command line, the decision taken
    when the formatter process closes and the working directory. It also
    holds the `substr` conversion of a character range into the byte range
    the formatter expects; that conversion is `src/extension.ts`'s only,
    since `src/NWScriptFormatter.ts` has its own,
    `NWScriptFormatter.RangeArgsAsWritten`. */
module Driver {
  import opened JsString
  import opened Utf8
  import opened ByteToOffset
  import opened Replacements
  import opened ClangPath
  import opened IgnoredFile

  /** The parts of a `TextDocument` the provider reads: its text, the
      directory of its file name (`dirname(document.fileName)`), the
      file-system path of its URI and whether it was never saved. */
  datatype Document = Document(text: String, directory: String, fsPath: String, isUntitled: bool)

  /** A range to format, as the character offsets `document.offsetAt` gives
      for its two ends. */
  datatype CharRange = CharRange(start: nat, end: nat)

  /** The surroundings the provider consults: the platform, the workspace
      root path, the workspace folder `${workspaceFolder}` stands for (none
      when no editor or folder is open), the `${...}` substitution of the
      executable setting, the file system, the directories of `PATH` and
      `path.join`. */
  datatype Environment = Environment(
    platform: Platform,
    root: Option<String>,
    workspaceFolder: Option<String>,
    expand: String -> String,
    fs: FileSystem,
    pathDirs: seq<String>,
    join: (String, String) -> String)

  /** The formatter's arguments: `-output-replacements-xml`,
      `-style=STYLE`, `-offset=N` and `-length=N`. */
  datatype Arg = OutputReplacementsXml | StyleArg(style: String) | OffsetArg(bytes: nat) | LengthArg(bytes: nat)

  /** The process the provider spawns: executable, arguments and working
      directory. */
  datatype Invocation = Invocation(bin: String, args: seq<Arg>, cwd: String)

  /** What the spawned formatter did: everything it wrote to stderr, its
      exit code (`null` when a signal ended it) and the events the XML
      parser reports for what it wrote to stdout. */
  datatype Completion = Completion(stderr: String, code: Option<int>, events: seq<Event>)

  /** How the promise `doFormatDocument` returns settles: `resolve(null)`;
      the outcome of the `getEdits` promise it resolves with; the rejection
      "Cannot format due to syntax errors."; the bare `reject()` of a
      failed exit. */
  datatype Response = NoEdits | Answer(outcome: Outcome) | SyntaxErrors | ExitFailure

  /** The three ways the `close` handler can go. */
  datatype CloseDecision = RejectSyntaxErrors | RejectExitCode | ParseOutput

  /** The `close` handler: anything on stderr rejects whatever the exit
      code; otherwise an exit code other than 0, `null` included, rejects;
      only a clean exit with nothing on stderr has its output parsed. */
  function OnClose(stderr: String, code: Option<int>): (d: CloseDecision)
    ensures d == RejectSyntaxErrors <==> stderr != []
    ensures d == RejectExitCode <==> stderr == [] && code != Some(0)
    ensures d == ParseOutput <==> stderr == [] && code == Some(0)
  {
    if |stderr| != 0 then RejectSyntaxErrors
    else if code != Some(0) then RejectExitCode
    else ParseOutput
  }

  /** Where the `close` handler leaves the provider's promise, given what
      parsing the output would settle to. */
  function Respond(d: CloseDecision, parsed: Outcome): (r: Response)
    ensures r.Answer? <==> d == ParseOutput
    ensures r.Answer? ==> r.outcome == parsed
  {
    match d
    case RejectSyntaxErrors => SyntaxErrors
    case RejectExitCode => ExitFailure
    case ParseOutput => Answer(parsed)
  }

  /** The formatter runs in the workspace root only for an untitled
      document in an open workspace, and in the document's directory
      otherwise. */
  function WorkingPath(isUntitled: bool, root: Option<String>, directory: String): (r: String)
    ensures isUntitled && Truthy(root) ==> r == root.value
    ensures !isUntitled || !Truthy(root) ==> r == directory
  {
    if !isUntitled || !Truthy(root) then directory else root.value
  }

  /** The range block of `src/extension.ts`, with `substr`: the character
      offset and length of the range become the UTF-8 byte length of the
      text before the range and of the text in it. */
  method RangeArgs(code: String, start: nat, end: nat) returns (offset: nat, length: nat)
    requires start <= end <= |code|
    ensures offset == ByteLength(code[..start])
    ensures length == ByteLength(code[start..end])
    ensures ByteRange(code, Some(CharRange(start, end))) == Some((offset, length))
  {
    offset := start;
    length := end - start;
    length := ByteLength(Substr(code, offset, length));
    offset := ByteLength(Substr(code, 0, offset));
  }

  /** The byte range covers exactly the bytes of the selected text: the
      offset and length add up to the byte length of everything up to the
      end of the range, when the start does not cut a surrogate pair. */
  lemma RangeArgsCover(code: String, start: nat, end: nat)
    requires start <= end <= |code| && NotInsidePair(code, start)
    ensures ByteLength(code[..start]) + ByteLength(code[start..end]) == ByteLength(code[..end])
  {
    var prefix := code[..end];
    assert NotInsidePair(prefix, start) by {
      if 0 < start < |prefix| {
        assert prefix[start - 1] == code[start - 1] && prefix[start] == code[start];
      }
    }
    TwoWaySplit(prefix, start);
    assert prefix[..start] == code[..start] && prefix[start..] == code[start..end];
  }

  /** The byte range the provider sends comes back, through the translator
      with a fresh cache, as the character range it started from. */
  lemma RangeArgsRoundTrip(code: String, start: nat, end: nat)
    requires start <= end <= |code| && NotInsidePair(code, start) && NotInsidePair(code, end)
    ensures TranslateOffset(Utf8Bytes(code), START, ByteLength(code[..start])) == start
    ensures TranslateLength(Utf8Bytes(code), ByteLength(code[..start]), ByteLength(code[start..end])) == end - start
  {
    StartIsAnchored(code);
    RoundTrip(code, START, start, end);
  }

  /** The byte offset and length `RangeArgs` computes, as a value: the
      specification the `substr` range block of `src/extension.ts` is held
      to. */
  function ByteRange(code: String, range: Option<CharRange>): (r: Option<(nat, nat)>)
    requires range.Some? ==> range.value.start <= range.value.end <= |code|
    ensures r.Some? <==> range.Some?
  {
    match range
    case None => None
    case Some(CharRange(start, end)) => Some((ByteLength(code[..start]), ByteLength(code[start..end])))
  }

  /** The argument list: XML replacements, the style and, for a range, its
      byte offset and length. */
  function FormatArgs(style: String, byteRange: Option<(nat, nat)>): (r: seq<Arg>)
    ensures |r| == if byteRange.Some? then 4 else 2
    ensures r[0] == OutputReplacementsXml && r[1] == StyleArg(style)
    ensures byteRange.Some? ==> r[2] == OffsetArg(byteRange.value.0) && r[3] == LengthArg(byteRange.value.1)
  {
    [OutputReplacementsXml, StyleArg(style)] +
    (if byteRange.Some? then [OffsetArg(byteRange.value.0), LengthArg(byteRange.value.1)] else [])
  }
}
