/** The ignore matcher: a document is left alone when one of the configured
    `ignoredPaths`, joined to the workspace root, exists and is either a
    directory whose path occurs in the document's path or the document's
    path itself. The file system is a pair of path sets; `path.join` is a
    parameter. */
module IgnoredFile {
  import opened JsString

  /** What `existsSync` and `lstatSync(..).isDirectory()` answer. */
  datatype FileSystem = FileSystem(present: set<String>, directories: set<String>)

  /** The callback given to `some`, for one configured entry: only an
      existing path matches; a path that is not a directory matches only
      the document's own path, which always matches when it exists. */
  predicate Matches(root: String, entry: String, filePath: String, fs: FileSystem,
                    join: (String, String) -> String)
    ensures Matches(root, entry, filePath, fs, join) ==> join(root, entry) in fs.present
    ensures Matches(root, entry, filePath, fs, join) && join(root, entry) !in fs.directories ==>
              filePath == join(root, entry)
    ensures join(root, entry) in fs.present && filePath == join(root, entry) ==>
              Matches(root, entry, filePath, fs, join)
  {
    var path := join(root, entry);
    path in fs.present && ((path in fs.directories && Includes(filePath, path)) || filePath == path)
  }

  /** `entries.some(..)`, tried from the first entry on. */
  function AnyMatches(root: String, entries: seq<String>, filePath: String, fs: FileSystem,
                      join: (String, String) -> String): (r: bool)
    ensures r <==> exists i | 0 <= i < |entries| :: Matches(root, entries[i], filePath, fs, join)
    decreases |entries|
  {
    if entries == [] then false
    else if Matches(root, entries[0], filePath, fs, join) then true
    else
      assert forall i | 0 < i < |entries| :: entries[i] == entries[1..][i - 1];
      AnyMatches(root, entries[1..], filePath, fs, join)
  }

  /** The default export, read for truthiness: no workspace root and an
      unset `ignoredPaths` both give a falsy answer. */
  function IsIgnoredFile(root: Option<String>, ignoredPaths: Option<seq<String>>, filePath: String,
                         fs: FileSystem, join: (String, String) -> String): (r: bool)
    ensures !Truthy(root) ==> !r
    ensures ignoredPaths.None? ==> !r
    ensures r <==> Truthy(root) && ignoredPaths.Some? &&
                   exists i | 0 <= i < |ignoredPaths.value| ::
                     Matches(root.value, ignoredPaths.value[i], filePath, fs, join)
  {
    if !Truthy(root) then false
    else if ignoredPaths.None? then false
    else AnyMatches(root.value, ignoredPaths.value, filePath, fs, join)
  }

  /** Only which entries are configured counts: not their order, nor how
      often one is repeated. */
  lemma OrderIrrelevant(root: String, a: seq<String>, b: seq<String>, filePath: String, fs: FileSystem,
                        join: (String, String) -> String)
    requires forall e :: e in a <==> e in b
    ensures AnyMatches(root, a, filePath, fs, join) == AnyMatches(root, b, filePath, fs, join)
  {
    if AnyMatches(root, a, filePath, fs, join) {
      var i :| 0 <= i < |a| && Matches(root, a[i], filePath, fs, join);
      assert a[i] in b;
      var j :| 0 <= j < |b| && b[j] == a[i];
    }
    if AnyMatches(root, b, filePath, fs, join) {
      var j :| 0 <= j < |b| && Matches(root, b[j], filePath, fs, join);
      assert b[j] in a;
      var i :| 0 <= i < |a| && a[i] == b[j];
    }
  }

  /** Containment is a substring test, not a prefix test: an existing
      ignored directory matches a document whose path holds the directory's
      path anywhere, also in the middle. */
  lemma DirectoryMatchesAnywhere(root: String, entry: String, outside: String, inside: String,
                                 fs: FileSystem, join: (String, String) -> String)
    requires join(root, entry) in fs.present && join(root, entry) in fs.directories
    ensures Matches(root, entry, outside + join(root, entry) + inside, fs, join)
  {
    var path := join(root, entry);
    var filePath := outside + path + inside;
    assert filePath[|outside|..|outside| + |path|] == path;
    assert OccursAt(filePath, path, |outside|);
  }

  /** An entry whose joined path does not exist never matches, even when
      it names the document exactly; if no entry exists, nothing is
      ignored. */
  lemma MissingEntriesNeverMatch(root: Option<String>, entries: seq<String>, filePath: String, fs: FileSystem,
                                 join: (String, String) -> String)
    requires root.Some?
    requires forall i | 0 <= i < |entries| :: join(root.value, entries[i]) !in fs.present
    ensures !IsIgnoredFile(root, Some(entries), filePath, fs, join)
  {
  }

  /** An existing file matches exactly its own path; an existing entry that
      is not a directory matches no other path. */
  lemma FileEntryMatchesOnlyItself(root: String, entry: String, filePath: String, fs: FileSystem,
                                   join: (String, String) -> String)
    requires join(root, entry) in fs.present && join(root, entry) !in fs.directories
    ensures Matches(root, entry, filePath, fs, join) <==> filePath == join(root, entry)
  {
  }
}
