/** The two lookup helpers: by extension priority, and by listing order. */
module FileUtils {

  import opened Wrappers
  import opened Text
  import opened Paths
  import opened Filesystem

  /** The candidate path for `prefix.ext` inside `dir`. */
  function Candidate(dir: string, prefix: string, ext: string): string
  {
    Join(dir, prefix + "." + ext)
  }

  /** The first candidate, in `exts` order, that is a file. */
  function FirstFile(fs: Fs, dir: string, prefix: string, exts: seq<string>): (r: Option<string>)
    ensures r.Some? ==> IsFile(fs, r.value) && exists k | 0 <= k < |exts| :: r.value == Candidate(dir, prefix, exts[k])
  {
    if exts == [] then None
    else if IsFile(fs, Candidate(dir, prefix, exts[0])) then Some(Candidate(dir, prefix, exts[0]))
    else
      var r := FirstFile(fs, dir, prefix, exts[1..]);
      assert r.Some? ==> exists k | 0 <= k < |exts| :: r.value == Candidate(dir, prefix, exts[k]) by {
        if r.Some? {
          var k :| 0 <= k < |exts[1..]| && r.value == Candidate(dir, prefix, exts[1..][k]);
          assert r.value == Candidate(dir, prefix, exts[k + 1]);
        }
      }
      r
  }

  /** `find_file`: `None` for a missing directory, otherwise the first existing `prefix.ext`. */
  function FindFile(fs: Fs, dir: string, prefix: string, exts: seq<string>): (r: Option<string>)
    ensures !IsDir(fs, dir) || exts == [] ==> r == None
    ensures r.Some? ==> IsFile(fs, r.value) && exists k | 0 <= k < |exts| :: r.value == Candidate(dir, prefix, exts[k])
  {
    if !IsDir(fs, dir) then None else FirstFile(fs, dir, prefix, exts)
  }

  /** The search finds the candidate of index `k` exactly when it is a file and no earlier one is. */
  lemma {:induction false} FirstFileIndex(fs: Fs, dir: string, prefix: string, exts: seq<string>, k: nat)
    requires k < |exts|
    requires IsFile(fs, Candidate(dir, prefix, exts[k]))
    requires forall j | 0 <= j < k :: !IsFile(fs, Candidate(dir, prefix, exts[j]))
    ensures FirstFile(fs, dir, prefix, exts) == Some(Candidate(dir, prefix, exts[k]))
    decreases k
  {
    if k > 0 {
      assert !IsFile(fs, Candidate(dir, prefix, exts[0]));
      forall j | 0 <= j < k - 1
        ensures !IsFile(fs, Candidate(dir, prefix, exts[1..][j]))
      {
        assert exts[1..][j] == exts[j + 1];
      }
      FirstFileIndex(fs, dir, prefix, exts[1..], k - 1);
    }
  }

  /** No candidate is a file: nothing is found. */
  lemma {:induction false} FirstFileNone(fs: Fs, dir: string, prefix: string, exts: seq<string>)
    requires forall j | 0 <= j < |exts| :: !IsFile(fs, Candidate(dir, prefix, exts[j]))
    ensures FirstFile(fs, dir, prefix, exts) == None
    decreases |exts|
  {
    if exts != [] {
      assert !IsFile(fs, Candidate(dir, prefix, exts[0]));
      forall j | 0 <= j < |exts| - 1
        ensures !IsFile(fs, Candidate(dir, prefix, exts[1..][j]))
      {
        assert exts[1..][j] == exts[j + 1];
      }
      FirstFileNone(fs, dir, prefix, exts[1..]);
    }
  }

  /**
   * In an existing directory `find_file` returns the path of the first
   * extension, in list order, whose file exists, and `None` when none does.
   */
  lemma FindFileFirstMatch(fs: Fs, dir: string, prefix: string, exts: seq<string>)
    requires IsDir(fs, dir)
    ensures (forall j | 0 <= j < |exts| :: !IsFile(fs, Candidate(dir, prefix, exts[j]))) ==> FindFile(fs, dir, prefix, exts) == None
    ensures forall k | 0 <= k < |exts| && IsFile(fs, Candidate(dir, prefix, exts[k])) && (forall j | 0 <= j < k :: !IsFile(fs, Candidate(dir, prefix, exts[j]))) ::
              FindFile(fs, dir, prefix, exts) == Some(Candidate(dir, prefix, exts[k]))
  {
    if forall j | 0 <= j < |exts| :: !IsFile(fs, Candidate(dir, prefix, exts[j])) {
      FirstFileNone(fs, dir, prefix, exts);
    }
    forall k | 0 <= k < |exts| && IsFile(fs, Candidate(dir, prefix, exts[k])) && (forall j | 0 <= j < k :: !IsFile(fs, Candidate(dir, prefix, exts[j])))
      ensures FindFile(fs, dir, prefix, exts) == Some(Candidate(dir, prefix, exts[k]))
    {
      FirstFileIndex(fs, dir, prefix, exts, k);
    }
  }

  /**
   * The name is matched exactly: for a directory path without a trailing
   * slash, a found path lies in `dir` and is named `prefix.ext` for one of
   * the extensions, with that case and spelling, and that entry is a file.
   */
  lemma FindFileExactName(fs: Fs, dir: string, prefix: string, exts: seq<string>)
    requires dir != [] && dir[|dir| - 1] != '/' && '/' !in prefix
    requires forall j | 0 <= j < |exts| :: '/' !in exts[j]
    ensures var r := FindFile(fs, dir, prefix, exts);
            r.Some? ==> Dirname(r.value) == dir && (exists k | 0 <= k < |exts| :: Basename(r.value) == prefix + "." + exts[k]) && IsFileIn(fs, dir, Basename(r.value))
  {
    var r := FindFile(fs, dir, prefix, exts);
    if r.Some? {
      var k :| 0 <= k < |exts| && r.value == Candidate(dir, prefix, exts[k]);
      var name := prefix + "." + exts[k];
      assert name[|prefix|] == '.';
      assert '/' !in name by {
        forall i | 0 <= i < |name| ensures name[i] != '/' {
          if i < |prefix| { assert name[i] == prefix[i]; }
          else if i > |prefix| { assert name[i] == exts[k][i - |prefix| - 1]; }
        }
      }
      JoinParts(dir, name);
    }
  }

  /** `find_any_file`'s test of a listing entry: named `prefix.*` and a file or a link. */
  predicate AnyFileMatch(e: Entry, prefix: string)
  {
    StartsWith(e.name, prefix + ".") && (IsFileKind(e.kind) || IsLinkKind(e.kind))
  }

  /** Index of the first entry that matches, `|entries|` when none does. */
  function FirstMatchIndex(entries: seq<Entry>, prefix: string): (i: nat)
    ensures i <= |entries|
    ensures i < |entries| ==> AnyFileMatch(entries[i], prefix)
    ensures forall j | 0 <= j < i :: !AnyFileMatch(entries[j], prefix)
  {
    if entries == [] then 0
    else if AnyFileMatch(entries[0], prefix) then 0
    else 1 + FirstMatchIndex(entries[1..], prefix)
  }

  /** `find_any_file`: the first entry of the listing named `prefix.*` that is a file or a link. */
  function FindAnyFile(fs: Fs, dir: string, prefix: string): (r: Option<string>)
    ensures !IsDir(fs, dir) ==> r == None
    ensures IsDir(fs, dir) ==>
              var entries := fs.dirs[dir];
              (r == None <==> forall j | 0 <= j < |entries| :: !AnyFileMatch(entries[j], prefix)) &&
              (r.Some? ==> exists i | 0 <= i < |entries| ::
                              r.value == Join(dir, entries[i].name) && AnyFileMatch(entries[i], prefix) &&
                              forall j | 0 <= j < i :: !AnyFileMatch(entries[j], prefix))
  {
    if !IsDir(fs, dir) then None
    else
      var entries := fs.dirs[dir];
      var i := FirstMatchIndex(entries, prefix);
      if i < |entries| then Some(Join(dir, entries[i].name)) else None
  }
}
