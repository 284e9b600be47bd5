/** The formatting provider of `src/NWScriptFormatter.ts`: an `enabled`
    switch, one executable setting with "clang-format" as its default, the
    style sent as JSON, the ignore check through the shared matcher, and a
    range converted with `substring`. */
module NWScriptFormatter {
  import opened JsString
  import opened Utf8
  import opened ByteToOffset
  import opened Replacements
  import opened ClangPath
  import opened IgnoredFile
  import opened Driver

  // "clang-format" as UTF-16 code units.
  const CLANG_FORMAT: String := [0x63, 0x6C, 0x61, 0x6E, 0x67, 0x2D, 0x66, 0x6F, 0x72, 0x6D, 0x61, 0x74]

  /** The `nwscript-formatter` settings this revision reads: `enabled`,
      `executable` and `ignoredPaths` (`None` when unset), and the text
      `getStyle` produces for the `style` setting. */
  datatype Settings = Settings(
    enabled: Option<bool>,
    executable: Option<String>,
    styleJson: String,
    ignoredPaths: Option<seq<String>>)

  /** `getExecutablePath`: the setting when it is a non-empty string, else
      "clang-format"; either has its `${...}` variables expanded when both
      the workspace root and the workspace folder are known. */
  function ExecutablePath(settings: Settings, env: Environment): (r: String)
    ensures !(Truthy(env.root) && Truthy(env.workspaceFolder)) ==>
              r == (if Truthy(settings.executable) then settings.executable.value else CLANG_FORMAT)
    ensures Truthy(env.root) && Truthy(env.workspaceFolder) ==>
              r == env.expand(if Truthy(settings.executable) then settings.executable.value else CLANG_FORMAT)
  {
    var execPath := if Truthy(settings.executable) then settings.executable.value else CLANG_FORMAT;
    if Truthy(env.root) && Truthy(env.workspaceFolder) then env.expand(execPath) else execPath
  }

  /** The range block as written: `substring(offset, length)` reads its
      second argument as an end index, so the length sent is the byte
      length of the text between `start` and `end - start`, in whichever
      order they come. */
  method RangeArgsAsWritten(code: String, start: nat, end: nat) returns (offset: nat, length: nat)
    requires start <= end <= |code|
    ensures offset == ByteLength(code[..start])
    ensures length == ByteLength(code[Min(start, end - start)..Max(start, end - start)])
    ensures ByteRangeAsWritten(code, Some(CharRange(start, end))) == Some((offset, length))
  {
    offset := start;
    length := end - start;
    length := ByteLength(Substring(code, offset, length));
    offset := ByteLength(Substring(code, 0, offset));
  }

  /** The byte offset and length `RangeArgsAsWritten` computes, as a value:
      the offset is right, the length is that of the text between `start`
      and `end - start`. */
  function ByteRangeAsWritten(code: String, range: Option<CharRange>): (r: Option<(nat, nat)>)
    requires range.Some? ==> range.value.start <= range.value.end <= |code|
    ensures r.Some? <==> range.Some?
    ensures r.Some? ==> r.value.0 == ByteRange(code, range).value.0
  {
    match range
    case None => None
    case Some(CharRange(start, end)) =>
      var back := end - start;
      Some((ByteLength(code[..start]), ByteLength(code[Min(start, back)..Max(start, back)])))
  }

  /** The range block as written and as intended send the same bytes
      exactly when the text between `start` and `end - start` has as many
      bytes as the selection. */
  lemma AsWrittenAgreesWhen(code: String, start: nat, end: nat)
    requires start <= end <= |code|
    ensures ByteRangeAsWritten(code, Some(CharRange(start, end))) == ByteRange(code, Some(CharRange(start, end)))
            <==> ByteLength(code[Min(start, end - start)..Max(start, end - start)]) == ByteLength(code[start..end])
  {
  }

  /** On ASCII text every slice is its own byte count. */
  lemma AsciiSliceBytes(code: String, a: nat, b: nat)
    requires IsAscii(code) && a <= b <= |code|
    ensures ByteLength(code[a..b]) == b - a
  {
    assert IsAscii(code[a..b]) by {
      forall i | 0 <= i < b - a ensures code[a..b][i] < 0x80 {
        assert code[a..b][i] == code[a + i];
      }
    }
    AsciiBytes(code[a..b]);
  }

  /** On ASCII text the length sent as written is the selection's length
      only when the selection starts at 0 or at twice its own length. */
  lemma AsWrittenLengthOnAscii(code: String, start: nat, end: nat)
    requires IsAscii(code) && start <= end <= |code|
    ensures ByteLength(code[Min(start, end - start)..Max(start, end - start)]) == ByteLength(code[start..end])
            <==> start == 0 || start == 2 * (end - start)
  {
    AsciiSliceBytes(code, Min(start, end - start), Max(start, end - start));
    AsciiSliceBytes(code, start, end);
  }

  /** Selecting "e" in "abcdef" (start 4, end 5) sends a length of 3 bytes,
      the bytes of "bcd", where the selection has 1. */
  lemma SubstringRangeCounterexample()
    ensures var code: String := [0x61, 0x62, 0x63, 0x64, 0x65, 0x66];
      ByteLength(Substring(code, 4, 5 - 4)) == 3 && ByteLength(code[4..5]) == 1
  {
    var code: String := [0x61, 0x62, 0x63, 0x64, 0x65, 0x66];
    assert IsAscii(code);
    assert Substring(code, 4, 1) == code[1..4];
    AsciiSliceBytes(code, 1, 4);
    AsciiSliceBytes(code, 4, 5);
  }

  /** `doFormatDocument`. A disabled provider and an ignored document both
      resolve to `null` before the executable is looked up, and no process
      starts. Otherwise the executable is looked up (which may fill the
      path cache), the process is described by `invocation`, and what it
      did, `completion`, decides the answer through the `close` handler.
      The range is converted with `substring` as written, see
      `RangeArgsAsWritten`. */
  method FormatDocument(binCache: BinPathCache, doc: Document, settings: Settings, env: Environment,
                        range: Option<CharRange>, completion: Completion)
    returns (invocation: Option<Invocation>, response: Response)
    requires range.Some? ==> range.value.start <= range.value.end <= |doc.text|
    modifies binCache
    ensures settings.enabled != Some(true) ==> invocation.None? && response == NoEdits
    ensures var skipped := settings.enabled != Some(true) ||
                           IsIgnoredFile(env.root, settings.ignoredPaths, doc.fsPath, env.fs, env.join);
      (skipped <==> invocation.None?) &&
      (skipped ==> response == NoEdits && binCache.entries == old(binCache.entries))
    ensures invocation.Some? ==>
      invocation.value.bin == Lookup(old(binCache.entries), ExecutablePath(settings, env), env.platform,
                                     env.fs.present, env.pathDirs, env.join) &&
      binCache.entries == (if Cached(old(binCache.entries), ExecutablePath(settings, env)).Some?
                           then old(binCache.entries)
                           else old(binCache.entries)[ExecutablePath(settings, env) := invocation.value.bin]) &&
      invocation.value.args == FormatArgs(settings.styleJson, ByteRangeAsWritten(doc.text, range)) &&
      invocation.value.cwd == WorkingPath(doc.isUntitled, env.root, doc.directory) &&
      response == Respond(OnClose(completion.stderr, completion.code),
                          Observe(Process(Utf8Bytes(doc.text), Initial(START), completion.events)))
  {
    if settings.enabled != Some(true) {
      return None, NoEdits;
    }
    var workingPath := WorkingPath(doc.isUntitled, env.root, doc.directory);
    if IsIgnoredFile(env.root, settings.ignoredPaths, doc.fsPath, env.fs, env.join) {
      return None, NoEdits;
    }
    var bin := binCache.GetBinPath(ExecutablePath(settings, env), env.platform, env.fs.present, env.pathDirs,
                                   env.join);
    var args := [OutputReplacementsXml, StyleArg(settings.styleJson)];
    if range.Some? {
      var offset, length := RangeArgsAsWritten(doc.text, range.value.start, range.value.end);
      args := args + [OffsetArg(offset), LengthArg(length)];
    }
    invocation := Some(Invocation(bin, args, workingPath));
    match OnClose(completion.stderr, completion.code) {
      case RejectSyntaxErrors =>
        response := SyntaxErrors;
      case RejectExitCode =>
        response := ExitFailure;
      case ParseOutput =>
        var outcome := GetEditsScoped(doc.text, completion.events);
        response := Answer(outcome);
    }
  }
}
