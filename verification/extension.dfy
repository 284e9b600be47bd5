/** The formatting provider of `src/extension.ts`: executable chosen per
    platform, style given as a string setting, ignore check written inline,
    range converted with `substr`. */
module Extension {
  import opened JsString
  import opened Utf8
  import opened ByteToOffset
  import opened Replacements
  import opened ClangPath
  import opened IgnoredFile
  import opened Driver

  // "windows", "linux", "osx", "unknown", "file" and "nwscript-formatter"
  // as UTF-16 code units.
  const WINDOWS: String := [0x77, 0x69, 0x6E, 0x64, 0x6F, 0x77, 0x73]
  const LINUX: String := [0x6C, 0x69, 0x6E, 0x75, 0x78]
  const OSX: String := [0x6F, 0x73, 0x78]
  const UNKNOWN: String := [0x75, 0x6E, 0x6B, 0x6E, 0x6F, 0x77, 0x6E]
  const FILE: String := [0x66, 0x69, 0x6C, 0x65]
  const NWSCRIPT_FORMATTER: String :=
    [0x6E, 0x77, 0x73, 0x63, 0x72, 0x69, 0x70, 0x74, 0x2D, 0x66, 0x6F, 0x72, 0x6D, 0x61, 0x74, 0x74, 0x65, 0x72]

  /** The `nwscript-formatter` settings this revision reads:
      `executable.<platform>` keyed by platform name, `executable`, `style`
      and `ignoredPaths`; `None` is an unset setting. */
  datatype Settings = Settings(
    platformExecutables: map<String, String>,
    executable: Option<String>,
    style: Option<String>,
    ignoredPaths: Option<seq<String>>)

  /** `getPlatformString`: the settings name of each platform; any other
      platform is "unknown". */
  function PlatformString(platform: Platform): (r: String)
    ensures platform == Win32 <==> r == WINDOWS
    ensures platform == Linux <==> r == LINUX
    ensures platform == Darwin <==> r == OSX
    ensures platform == OtherPlatform <==> r == UNKNOWN
  {
    match platform
    case Win32 => WINDOWS
    case Linux => LINUX
    case Darwin => OSX
    case OtherPlatform => UNKNOWN
  }

  /** `config.get("executable." + platform)`: present exactly when the
      setting for this platform's name is. */
  function PlatformExecutable(settings: Settings, platform: Platform): (r: Option<String>)
    ensures r.Some? <==> PlatformString(platform) in settings.platformExecutables
    ensures r.Some? ==> r.value == settings.platformExecutables[PlatformString(platform)]
  {
    var key := PlatformString(platform);
    if key in settings.platformExecutables then Some(settings.platformExecutables[key]) else None
  }

  /** `platformExecPath || defaultExecPath`, read for truthiness: the
      platform setting when it is a non-empty string, else the generic one
      when it is, else nothing. */
  function ExecutableSetting(settings: Settings, platform: Platform): (r: Option<String>)
    ensures r.Some? ==> r.value != []
    ensures Truthy(PlatformExecutable(settings, platform)) ==> r == PlatformExecutable(settings, platform)
    ensures !Truthy(PlatformExecutable(settings, platform)) && Truthy(settings.executable) ==>
              r == settings.executable
    ensures r.None? <==> !Truthy(PlatformExecutable(settings, platform)) && !Truthy(settings.executable)
  {
    var platformPath := PlatformExecutable(settings, platform);
    if Truthy(platformPath) then platformPath
    else if Truthy(settings.executable) then settings.executable
    else None
  }

  /** `getExecutablePath`: with no setting it is "nwscript-formatter",
      returned before any substitution; a configured path has its `${...}`
      variables expanded when both the workspace root and the workspace
      folder are known. */
  function ExecutablePath(settings: Settings, env: Environment): (r: String)
    ensures ExecutableSetting(settings, env.platform).None? ==> r == NWSCRIPT_FORMATTER
    ensures ExecutableSetting(settings, env.platform).Some? && !(Truthy(env.root) && Truthy(env.workspaceFolder)) ==>
              r == ExecutableSetting(settings, env.platform).value
    ensures ExecutableSetting(settings, env.platform).Some? && Truthy(env.root) && Truthy(env.workspaceFolder) ==>
              r == env.expand(ExecutableSetting(settings, env.platform).value)
  {
    match ExecutableSetting(settings, env.platform)
    case None => NWSCRIPT_FORMATTER
    case Some(path) => if Truthy(env.root) && Truthy(env.workspaceFolder) then env.expand(path) else path
  }

  /** `getStyle`: the trimmed setting when something is left after
      trimming, else "file". */
  function Style(setting: Option<String>): (r: String)
    ensures Truthy(setting) && Trim(setting.value) != [] ==> r == Trim(setting.value)
    ensures !(Truthy(setting) && Trim(setting.value) != []) ==> r == FILE
  {
    if Truthy(setting) && Trim(setting.value) != [] then Trim(setting.value) else FILE
  }

  /** The style passed on is never blank and never starts or ends with
      whitespace; it is "file" exactly for an unset or all-whitespace
      setting, or for one that trims to "file". */
  lemma StyleIsTrimmed(setting: Option<String>)
    ensures var r := Style(setting);
      r != [] && !IsWhitespace(r[0]) && !IsWhitespace(r[|r| - 1])
    ensures setting.None? || AllWhitespace(setting.value) ==> Style(setting) == FILE
    ensures setting.Some? && !AllWhitespace(setting.value) ==> Style(setting) == Trim(setting.value)
  {
    assert FILE[0] == 0x66 && FILE[|FILE| - 1] == 0x65;
    if setting.Some? {
      assert Trim(setting.value) == [] <==> AllWhitespace(setting.value) by {
        TrimSpec(setting.value);
      }
    }
  }

  /** The working directory as this revision computes it: start from the
      root and replace it by the document's directory unless the document
      is untitled and a root exists. */
  method WorkingPathOf(isUntitled: bool, root: Option<String>, directory: String) returns (workingPath: String)
    ensures workingPath == WorkingPath(isUntitled, root, directory)
  {
    var path := root;
    if !isUntitled || !Truthy(root) {
      path := Some(directory);
    }
    workingPath := path.value;
  }

  /** `doFormatDocument`. An ignored document resolves to `null` before the
      executable is looked up and no process starts. Otherwise the
      executable is looked up (which may fill the path cache), the process
      is described by `invocation`, and what it did, `completion`, decides
      the answer through the `close` handler. */
  method FormatDocument(binCache: BinPathCache, doc: Document, settings: Settings, env: Environment,
                        range: Option<CharRange>, completion: Completion)
    returns (invocation: Option<Invocation>, response: Response)
    requires range.Some? ==> range.value.start <= range.value.end <= |doc.text|
    modifies binCache
    ensures var ignored := IsIgnoredFile(env.root, settings.ignoredPaths, doc.fsPath, env.fs, env.join);
      (ignored <==> invocation.None?) &&
      (ignored ==> response == NoEdits && binCache.entries == old(binCache.entries))
    ensures invocation.Some? ==>
      invocation.value.bin == Lookup(old(binCache.entries), ExecutablePath(settings, env), env.platform,
                                     env.fs.present, env.pathDirs, env.join) &&
      binCache.entries == (if Cached(old(binCache.entries), ExecutablePath(settings, env)).Some?
                           then old(binCache.entries)
                           else old(binCache.entries)[ExecutablePath(settings, env) := invocation.value.bin]) &&
      invocation.value.args == FormatArgs(Style(settings.style), ByteRange(doc.text, range)) &&
      invocation.value.cwd == WorkingPath(doc.isUntitled, env.root, doc.directory) &&
      response == Respond(OnClose(completion.stderr, completion.code),
                          Observe(Process(Utf8Bytes(doc.text), Initial(START), completion.events)))
  {
    var workingPath := WorkingPathOf(doc.isUntitled, env.root, doc.directory);
    if Truthy(env.root) {
      if IsIgnoredFile(env.root, settings.ignoredPaths, doc.fsPath, env.fs, env.join) {
        return None, NoEdits;
      }
    }
    var bin := binCache.GetBinPath(ExecutablePath(settings, env), env.platform, env.fs.present, env.pathDirs,
                                   env.join);
    var args := [OutputReplacementsXml, StyleArg(Style(settings.style))];
    if range.Some? {
      var offset, length := RangeArgs(doc.text, range.value.start, range.value.end);
      args := args + [OffsetArg(offset), LengthArg(length)];
    }
    invocation := Some(Invocation(bin, args, workingPath));
    match OnClose(completion.stderr, completion.code) {
      case RejectSyntaxErrors =>
        response := SyntaxErrors;
      case RejectExitCode =>
        response := ExitFailure;
      case ParseOutput =>
        var outcome := GetEditsScoped(doc.text, completion.events);
        response := Answer(outcome);
    }
  }
}
