/**
 * The image change handler of the older device manager: a filesystem event
 * on an `image*` file inside a button folder asks for that key's image to
 * be redrawn. The timer that delays the redraw is left out; the request is
 * returned as a value.
 */
module ImageEvents {

  import opened Wrappers
  import opened Text
  import opened Paths
  import opened Filesystem

  /** What `process_image_change` does with one path. */
  datatype ImageReaction =
    | Ignored
    /** A timer calling `update_key_image(keyIndex)` is started. */
    | UpdateKey(keyIndex: int)
    /** `os.path.relpath` raises `ValueError` on an empty directory part; the handler does not catch it. */
    | RelPathError

  /** The folder name a path's directory is read from: its path relative to the configuration directory, or its own name when it is that directory. */
  function FolderOf(dirname: string, configDir: string): (r: Option<string>)
    ensures r.None? <==> dirname == []
    ensures r.Some? && RelParts(dirname, configDir) == [] ==> r.value == Basename(dirname)
  {
    match RelPath(dirname, configDir)
    case None => None
    case Some(rel) => Some(if rel != "." then rel else Basename(dirname))
  }

  /**
   * `process_image_change`: a directory is ignored; so is a file whose name
   * does not start with `image`; otherwise the folder's first two
   * characters, when both are digits, give key `int(..) - 1`.
   */
  function ProcessImageChange(fs: Fs, configDir: string, eventPath: string): (r: ImageReaction)
    ensures IsDir(fs, eventPath) ==> r == Ignored
    ensures !StartsWith(Basename(eventPath), "image") ==> r == Ignored
    ensures r == RelPathError <==> !IsDir(fs, eventPath) && StartsWith(Basename(eventPath), "image") && Dirname(eventPath) == []
    ensures r.UpdateKey? <==>
              !IsDir(fs, eventPath) && StartsWith(Basename(eventPath), "image") && Dirname(eventPath) != [] &&
              HasTwoDigitPrefix(FolderOf(Dirname(eventPath), configDir).value)
    ensures r.UpdateKey? ==> r.keyIndex == TwoDigitValue(FolderOf(Dirname(eventPath), configDir).value) - 1 && -1 <= r.keyIndex < 99
  {
    if IsDir(fs, eventPath) then Ignored
    else
      var filename := Basename(eventPath);
      var dirname := Dirname(eventPath);
      if !StartsWith(filename, "image") then Ignored
      else
        match FolderOf(dirname, configDir)
        case None => RelPathError
        case Some(folder) => if HasTwoDigitPrefix(folder) then UpdateKey(TwoDigitValue(folder) - 1) else Ignored
  }

  /** `"/".join(parts)` starts with its first part. */
  lemma JoinWithStartsWithFirst(parts: seq<string>, sep: char)
    requires parts != []
    ensures |JoinWith(parts, sep)| >= |parts[0]| && JoinWith(parts, sep)[..|parts[0]|] == parts[0]
  {
    if |parts| > 1 {
      assert JoinWith(parts, sep) == parts[0] + ([sep] + JoinWith(parts[1..], sep));
    }
  }

  /**
   * An `image*` file anywhere below a folder of the configuration
   * directory whose name starts with two digits asks for that folder's
   * key: `01_light/image.png` is key 0, and so is `01_light/sub/image.png`.
   */
  lemma ImageBelowButtonFolder(fs: Fs, configDir: string, eventPath: string, below: seq<string>)
    requires !IsDir(fs, eventPath) && StartsWith(Basename(eventPath), "image")
    requires Dirname(eventPath) != []
    requires Components(Dirname(eventPath)) == Components(configDir) + below
    requires below != [] && HasTwoDigitPrefix(below[0])
    ensures ProcessImageChange(fs, configDir, eventPath) == UpdateKey(TwoDigitValue(below[0]) - 1)
  {
    var dirname := Dirname(eventPath);
    RelPartsInside(dirname, configDir, below);
    var folder := JoinWith(below, '/');
    JoinWithStartsWithFirst(below, '/');
    assert folder[0] == below[0][0] && folder[1] == below[0][1];
    assert FolderOf(dirname, configDir) == Some(folder);
  }

  /** An `image*` file outside the configuration directory asks for nothing: its relative folder starts with `..`. */
  lemma ImageOutsideIgnored(fs: Fs, configDir: string, eventPath: string)
    requires Dirname(eventPath) != []
    requires !(Components(configDir) <= Components(Dirname(eventPath)))
    ensures ProcessImageChange(fs, configDir, eventPath) == Ignored
  {
    var dirname := Dirname(eventPath);
    var parts := RelParts(dirname, configDir);
    RelPartsOutside(dirname, configDir);
    JoinWithStartsWithFirst(parts, '/');
    var folder := JoinWith(parts, '/');
    assert folder[..2] == "..";
    assert folder[0] == '.';
    assert !HasTwoDigitPrefix(folder);
  }

  /** An `image*` file directly in the configuration directory asks for nothing unless that directory's own name starts with two digits. */
  lemma ImageAtTopLevel(fs: Fs, configDir: string, eventPath: string)
    requires !IsDir(fs, eventPath) && StartsWith(Basename(eventPath), "image")
    requires Dirname(eventPath) != []
    requires Components(Dirname(eventPath)) == Components(configDir)
    ensures ProcessImageChange(fs, configDir, eventPath) ==
              if HasTwoDigitPrefix(Basename(Dirname(eventPath))) then UpdateKey(TwoDigitValue(Basename(Dirname(eventPath))) - 1) else Ignored
  {
    assert Components(Dirname(eventPath)) == Components(configDir) + [];
    RelPartsInside(Dirname(eventPath), configDir, []);
  }

  /** What one event leads to: the key image requests in order, and whether the handler raised. */
  datatype EventOutcome = EventOutcome(keyIndexes: seq<int>, raised: bool)

  /** The key requested by a reaction, if any. */
  function Requested(r: ImageReaction): seq<int>
  {
    if r.UpdateKey? then [r.keyIndex] else []
  }

  /**
   * `on_any_event`: a moved event (one with a destination) has its
   * destination processed first, then its source path; any other event has
   * only its source path. An error on the destination stops the handler
   * before the source is looked at.
   */
  function OnAnyEvent(fs: Fs, configDir: string, srcPath: string, destPath: Option<string>): (o: EventOutcome)
    ensures |o.keyIndexes| <= 2
    ensures destPath.None? ==>
              o == EventOutcome(Requested(ProcessImageChange(fs, configDir, srcPath)), ProcessImageChange(fs, configDir, srcPath) == RelPathError)
    ensures destPath.Some? && ProcessImageChange(fs, configDir, destPath.value) != RelPathError ==>
              o.keyIndexes == Requested(ProcessImageChange(fs, configDir, destPath.value)) + Requested(ProcessImageChange(fs, configDir, srcPath))
    ensures destPath.Some? && ProcessImageChange(fs, configDir, destPath.value) == RelPathError ==> o == EventOutcome([], true)
    ensures o.raised <==>
              (destPath.Some? && ProcessImageChange(fs, configDir, destPath.value) == RelPathError) ||
              ProcessImageChange(fs, configDir, srcPath) == RelPathError
  {
    var first := if destPath.Some? then ProcessImageChange(fs, configDir, destPath.value) else Ignored;
    if first == RelPathError then EventOutcome([], true)
    else
      var second := ProcessImageChange(fs, configDir, srcPath);
      EventOutcome(Requested(first) + Requested(second), second == RelPathError)
  }

  /** Renaming a temporary file onto `image.png` of a button folder redraws that key, though the temporary name would not. */
  lemma RenameOntoImageRedraws(fs: Fs, configDir: string, srcPath: string, destPath: string, below: seq<string>)
    requires !IsDir(fs, destPath) && StartsWith(Basename(destPath), "image")
    requires Dirname(destPath) != []
    requires Components(Dirname(destPath)) == Components(configDir) + below
    requires below != [] && HasTwoDigitPrefix(below[0])
    requires !StartsWith(Basename(srcPath), "image")
    ensures OnAnyEvent(fs, configDir, srcPath, Some(destPath)) == EventOutcome([TwoDigitValue(below[0]) - 1], false)
  {
    ImageBelowButtonFolder(fs, configDir, destPath, below);
  }
}
