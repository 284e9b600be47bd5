/** The executable resolver: finds the formatter binary by trying the name
    as given and then each directory of the search path, for each of the
    platform's candidate file names, and remembers the answer per requested
    name for the rest of the session. The file system is a set of existing
    paths; `path.join` is a parameter. */
module ClangPath {
  import opened JsString

  /** `process.platform`, as far as the resolver and the driver tell
      platforms apart. */
  datatype Platform = Win32 | Linux | Darwin | OtherPlatform

  // ".exe", ".bat" and ".cmd" as UTF-16 code units.
  const EXE: String := [0x2E, 0x65, 0x78, 0x65]
  const BAT: String := [0x2E, 0x62, 0x61, 0x74]
  const CMD: String := [0x2E, 0x63, 0x6D, 0x64]

  /** `correctBinname`: the file names tried for `binname`, in order. The
      bare name always comes last and every candidate extends it; Windows
      tries the three executable suffixes first. */
  function CorrectBinname(binname: String, platform: Platform): (r: seq<String>)
    ensures r != [] && r[|r| - 1] == binname
    ensures forall i | 0 <= i < |r| :: |binname| <= |r[i]| && r[i][..|binname|] == binname
    ensures |r| == (if platform == Win32 then 4 else 1)
    ensures platform == Win32 ==> r[..3] == [binname + EXE, binname + BAT, binname + CMD]
  {
    if platform == Win32 then [binname + EXE, binname + BAT, binname + CMD, binname]
    else [binname]
  }

  /** `path.join(dir, candidate)` for every directory of the search path. */
  function Joined(dirs: seq<String>, candidate: String, join: (String, String) -> String): (r: seq<String>)
    ensures |r| == |dirs|
  {
    seq(|dirs|, i requires 0 <= i < |dirs| => join(dirs[i], candidate))
  }

  /** The paths tried for one candidate: the candidate itself, then the
      candidate in each directory of the search path. */
  function Expand(candidate: String, dirs: seq<String>, join: (String, String) -> String): seq<String>
  {
    [candidate] + Joined(dirs, candidate, join)
  }

  /** Every path the resolver tries, in the order it tries them: nothing
      without candidates, and the first candidate as given first. */
  function SearchOrder(candidates: seq<String>, dirs: seq<String>, join: (String, String) -> String)
    : (r: seq<String>)
    ensures r == [] <==> candidates == []
    ensures candidates != [] ==> r[0] == candidates[0]
    decreases |candidates|
  {
    if candidates == [] then []
    else Expand(candidates[0], dirs, join) + SearchOrder(candidates[1..], dirs, join)
  }

  predicate NoneExists(paths: seq<String>, present: set<String>)
  {
    forall i | 0 <= i < |paths| :: paths[i] !in present
  }

  /** The first path of `paths` that exists, if any. */
  function FirstExisting(paths: seq<String>, present: set<String>): (r: Option<String>)
    ensures r.Some? ==>
              r.value in present &&
              exists i | 0 <= i < |paths| :: paths[i] == r.value && NoneExists(paths[..i], present)
    ensures r.None? <==> NoneExists(paths, present)
    decreases |paths|
  {
    if paths == [] then None
    else if paths[0] in present then
      assert paths[..0] == [];
      Some(paths[0])
    else
      var r := FirstExisting(paths[1..], present);
      if r.Some? then
        var i :| 0 <= i < |paths[1..]| && paths[1..][i] == r.value && NoneExists(paths[1..][..i], present);
        assert paths[..i + 1] == [paths[0]] + paths[1..][..i];
        r
      else
        assert forall i | 0 < i < |paths| :: paths[i] == paths[1..][i - 1];
        r
  }

  /** What a lookup that misses the cache returns: the first existing path
      in search order, or the requested name itself when none exists. */
  function Resolve(binname: String, platform: Platform, present: set<String>, dirs: seq<String>,
                   join: (String, String) -> String): (r: String)
    ensures r in present || r == binname
    ensures r in SearchOrder(CorrectBinname(binname, platform), dirs, join) || r == binname
    ensures NoneExists(SearchOrder(CorrectBinname(binname, platform), dirs, join), present) ==> r == binname
  {
    match FirstExisting(SearchOrder(CorrectBinname(binname, platform), dirs, join), present)
    case Some(p) => p
    case None => binname
  }

  /** `binPathCache[binname]` read for truthiness: a missing entry and an
      empty string both miss. */
  function Cached(entries: map<String, String>, binname: String): (r: Option<String>)
    ensures r.Some? <==> binname in entries && entries[binname] != []
    ensures r.Some? ==> r.value == entries[binname]
  {
    if binname in entries && entries[binname] != [] then Some(entries[binname]) else None
  }

  /** What `getBinPath` answers with the cache holding `entries`. */
  function Lookup(entries: map<String, String>, binname: String, platform: Platform, present: set<String>,
                  dirs: seq<String>, join: (String, String) -> String): (r: String)
    ensures r in present || r == binname || Cached(entries, binname) == Some(r)
  {
    match Cached(entries, binname)
    case Some(p) => p
    case None => Resolve(binname, platform, present, dirs, join)
  }

  /** The inner loop of `getBinPath`: the first directory of the search
      path that holds `candidate`, joined to it. */
  method SearchDirs(candidate: String, dirs: seq<String>, present: set<String>,
                    join: (String, String) -> String) returns (found: Option<String>)
    ensures found == FirstExisting(Joined(dirs, candidate, join), present)
  {
    var di := 0;
    while di < |dirs|
      invariant 0 <= di <= |dirs|
      invariant NoneExists(Joined(dirs[..di], candidate, join), present)
    {
      var path := join(dirs[di], candidate);
      if path in present {
        JoinedAround(dirs, candidate, join, di);
        FirstAfterNone(Joined(dirs[..di], candidate, join), path, Joined(dirs[di + 1..], candidate, join), present);
        return Some(path);
      }
      NoneExistsSnoc(Joined(dirs[..di], candidate, join), path, present);
      assert Joined(dirs[..di + 1], candidate, join) == Joined(dirs[..di], candidate, join) + [path];
      di := di + 1;
    }
    assert dirs[..di] == dirs;
    return None;
  }

  /** The outer loop of `getBinPath`: each candidate file name is tried
      as given and then in each directory of the search path; the first
      path that exists is the answer. */
  method SearchCandidates(candidates: seq<String>, dirs: seq<String>, present: set<String>,
                          join: (String, String) -> String) returns (found: Option<String>)
    ensures found == FirstExisting(SearchOrder(candidates, dirs, join), present)
  {
    var ci := 0;
    while ci < |candidates|
      invariant 0 <= ci <= |candidates|
      invariant NoneExists(SearchOrder(candidates[..ci], dirs, join), present)
    {
      var candidate := candidates[ci];
      if candidate in present {
        FoundCandidate(candidates, dirs, join, present, ci);
        return Some(candidate);
      }
      found := SearchDirs(candidate, dirs, present, join);
      if found.Some? {
        FoundInDirs(candidates, dirs, join, present, ci);
        return found;
      }
      SearchOrderSnoc(candidates, dirs, join, ci);
      NoneExistsAppend(SearchOrder(candidates[..ci], dirs, join), Expand(candidate, dirs, join), present);
      ci := ci + 1;
    }
    assert candidates[..ci] == candidates;
    return None;
  }

  /** The module-level `binPathCache` together with `getBinPath`. */
  class BinPathCache {
    var entries: map<String, String>

    constructor ()
      ensures entries == map[]
    {
      entries := map[];
    }

    /** `getBinPath`: a cache hit answers at once; otherwise the search
        runs and whatever it returns, found path or bare name, is stored
        under the requested name. `dirs` are the entries of `PATH` split at
        the path delimiter, none when `PATH` is unset or empty. The two
        nested search loops are `SearchCandidates` and `SearchDirs`. */
    method GetBinPath(binname: String, platform: Platform, present: set<String>, dirs: seq<String>,
                      join: (String, String) -> String) returns (r: String)
      modifies this
      ensures Cached(old(entries), binname).Some? ==>
        r == Cached(old(entries), binname).value && entries == old(entries)
      ensures Cached(old(entries), binname).None? ==>
        r == Resolve(binname, platform, present, dirs, join) && entries == old(entries)[binname := r]
      ensures r == Lookup(old(entries), binname, platform, present, dirs, join)
      ensures r != [] ==> Cached(entries, binname) == Some(r)
    {
      if binname in entries && entries[binname] != [] {
        return entries[binname];
      }
      var found := SearchCandidates(CorrectBinname(binname, platform), dirs, present, join);
      r := if found.Some? then found.value else binname;
      entries := entries[binname := r];
    }
  }

  // ---------------------------------------------------------------------
  // Search order

  lemma {:induction false} SearchOrderAppend(a: seq<String>, b: seq<String>, dirs: seq<String>,
                                             join: (String, String) -> String)
    ensures SearchOrder(a + b, dirs, join) == SearchOrder(a, dirs, join) + SearchOrder(b, dirs, join)
    decreases |a|
  {
    if a == [] {
      assert a + b == b;
    } else {
      assert (a + b)[1..] == a[1..] + b;
      SearchOrderAppend(a[1..], b, dirs, join);
    }
  }

  lemma SearchOrderSnoc(candidates: seq<String>, dirs: seq<String>, join: (String, String) -> String, k: nat)
    requires k < |candidates|
    ensures SearchOrder(candidates[..k + 1], dirs, join) ==
      SearchOrder(candidates[..k], dirs, join) + Expand(candidates[k], dirs, join)
  {
    assert candidates[..k + 1] == candidates[..k] + [candidates[k]];
    SearchOrderAppend(candidates[..k], [candidates[k]], dirs, join);
    var last: seq<String> := [candidates[k]];
    assert last[1..] == [];
  }

  lemma {:induction false} SearchOrderLength(candidates: seq<String>, dirs: seq<String>,
                                             join: (String, String) -> String)
    ensures |SearchOrder(candidates, dirs, join)| == |candidates| * (|dirs| + 1)
    decreases |candidates|
  {
    if candidates != [] {
      SearchOrderLength(candidates[1..], dirs, join);
      assert |candidates| * (|dirs| + 1) == (|dirs| + 1) + (|candidates| - 1) * (|dirs| + 1);
    }
  }

  /** The search order spelled out by position: with `n` directories, the
      `k`-th candidate is tried at position `k * (n + 1)`, followed by its
      join with each directory in turn. */
  lemma SearchOrderAt(candidates: seq<String>, dirs: seq<String>, join: (String, String) -> String, k: nat, j: nat)
    requires k < |candidates| && j <= |dirs|
    ensures k * (|dirs| + 1) + j < |SearchOrder(candidates, dirs, join)|
    ensures j == 0 ==> SearchOrder(candidates, dirs, join)[k * (|dirs| + 1)] == candidates[k]
    ensures 0 < j ==> SearchOrder(candidates, dirs, join)[k * (|dirs| + 1) + j] == join(dirs[j - 1], candidates[k])
  {
    var before := SearchOrder(candidates[..k], dirs, join);
    var here := Expand(candidates[k], dirs, join);
    var after := SearchOrder(candidates[k + 1..], dirs, join);
    SearchOrderLength(candidates[..k], dirs, join);
    SearchOrderAround(candidates, dirs, join, k);
    assert |before| == k * (|dirs| + 1);
    assert SearchOrder(candidates, dirs, join)[|before| + j] == here[j];
  }

  lemma NoneExistsSnoc(paths: seq<String>, x: String, present: set<String>)
    requires NoneExists(paths, present) && x !in present
    ensures NoneExists(paths + [x], present)
  {
    assert forall i | 0 <= i < |paths| :: (paths + [x])[i] == paths[i];
  }

  /** The search order around candidate `k`: what comes before it, its
      own paths, and what comes after. */
  lemma SearchOrderAround(candidates: seq<String>, dirs: seq<String>, join: (String, String) -> String, k: nat)
    requires k < |candidates|
    ensures SearchOrder(candidates, dirs, join) ==
      SearchOrder(candidates[..k], dirs, join) + Expand(candidates[k], dirs, join) +
      SearchOrder(candidates[k + 1..], dirs, join)
  {
    SearchOrderSnoc(candidates, dirs, join, k);
    SearchOrderAppend(candidates[..k + 1], candidates[k + 1..], dirs, join);
    assert candidates[..k + 1] + candidates[k + 1..] == candidates;
  }

  lemma JoinedAround(dirs: seq<String>, c: String, join: (String, String) -> String, j: nat)
    requires j < |dirs|
    ensures Joined(dirs, c, join) == Joined(dirs[..j], c, join) + [join(dirs[j], c)] + Joined(dirs[j + 1..], c, join)
  {
  }

  /** Found on the candidate itself, after no earlier path existed. */
  lemma FoundCandidate(candidates: seq<String>, dirs: seq<String>, join: (String, String) -> String,
                       present: set<String>, ci: nat)
    requires ci < |candidates| && candidates[ci] in present
    requires NoneExists(SearchOrder(candidates[..ci], dirs, join), present)
    ensures FirstExisting(SearchOrder(candidates, dirs, join), present) == Some(candidates[ci])
  {
    var before := SearchOrder(candidates[..ci], dirs, join);
    var after := Joined(dirs, candidates[ci], join) + SearchOrder(candidates[ci + 1..], dirs, join);
    SearchOrderAround(candidates, dirs, join, ci);
    assert SearchOrder(candidates, dirs, join) == before + [candidates[ci]] + after;
    FirstAfterNone(before, candidates[ci], after, present);
  }

  /** Found in a directory of the search path, after neither an earlier
      candidate nor the candidate itself existed. */
  lemma FoundInDirs(candidates: seq<String>, dirs: seq<String>, join: (String, String) -> String,
                    present: set<String>, ci: nat)
    requires ci < |candidates| && candidates[ci] !in present
    requires NoneExists(SearchOrder(candidates[..ci], dirs, join), present)
    requires FirstExisting(Joined(dirs, candidates[ci], join), present).Some?
    ensures FirstExisting(SearchOrder(candidates, dirs, join), present) ==
            FirstExisting(Joined(dirs, candidates[ci], join), present)
  {
    var c := candidates[ci];
    var prior := SearchOrder(candidates[..ci], dirs, join);
    var inDirs := Joined(dirs, c, join);
    var rest := SearchOrder(candidates[ci + 1..], dirs, join);
    SearchOrderAround(candidates, dirs, join, ci);
    assert SearchOrder(candidates, dirs, join) == (prior + [c]) + (inDirs + rest);
    NoneExistsSnoc(prior, c, present);
    FirstExistingAppend(prior + [c], inDirs + rest, present);
    FirstExistingAppend(inDirs, rest, present);
  }

  /** The first existing path of two lists laid end to end is the first
      one of the first list, if it has one, else the first one of the
      second. */
  lemma {:induction false} FirstExistingAppend(a: seq<String>, b: seq<String>, present: set<String>)
    ensures FirstExisting(a + b, present) ==
            if FirstExisting(a, present).Some? then FirstExisting(a, present) else FirstExisting(b, present)
    decreases |a|
  {
    if a == [] {
      assert a + b == b;
    } else {
      assert (a + b)[0] == a[0];
      assert (a + b)[1..] == a[1..] + b;
      FirstExistingAppend(a[1..], b, present);
    }
  }

  lemma NoneExistsAppend(a: seq<String>, b: seq<String>, present: set<String>)
    requires NoneExists(a, present) && NoneExists(b, present)
    ensures NoneExists(a + b, present)
  {
    assert forall i | 0 <= i < |a + b| :: (a + b)[i] == if i < |a| then a[i] else b[i - |a|];
  }

  lemma {:induction false} FirstAfterNone(before: seq<String>, x: String, after: seq<String>, present: set<String>)
    requires NoneExists(before, present) && x in present
    ensures FirstExisting(before + [x] + after, present) == Some(x)
    decreases |before|
  {
    if before == [] {
      assert before + [x] + after == [x] + after;
    } else {
      assert (before + [x] + after)[1..] == before[1..] + [x] + after;
      FirstAfterNone(before[1..], x, after, present);
    }
  }

  /** Off Windows the resolver answers with the bare name or with the bare
      name joined to a directory of the search path. */
  lemma ResolveOffWindows(binname: String, platform: Platform, present: set<String>, dirs: seq<String>,
                          join: (String, String) -> String)
    requires platform != Win32
    ensures var r := Resolve(binname, platform, present, dirs, join);
      r == binname || exists j | 0 <= j < |dirs| :: r == join(dirs[j], binname)
  {
    var candidates := CorrectBinname(binname, platform);
    assert candidates == [binname];
    assert SearchOrder(candidates, dirs, join) == Expand(binname, dirs, join) by {
      assert candidates[1..] == [];
    }
  }
}
