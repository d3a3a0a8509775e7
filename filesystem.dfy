/**
 * A snapshot of the part of the filesystem the daemon looks at: every
 * existing directory with its listing, in `os.listdir` order. The
 * `os.path.isdir`, `isfile` and `islink` tests are answered from it.
 */
module Filesystem {

  import opened Paths

  /** Where a symbolic link leads (`os.path.isfile`/`isdir` follow links). */
  datatype Target = ToFile | ToDirectory | Dangling

  datatype Kind = RegularFile | Directory | Symlink(target: Target)

  datatype Entry = Entry(name: string, kind: Kind)

  /** Directory path to its listing. */
  datatype Fs = Fs(dirs: map<string, seq<Entry>>)

  /** `os.path.isfile` of an entry: a regular file or a link to one. */
  predicate IsFileKind(k: Kind)
  {
    k == RegularFile || k == Symlink(ToFile)
  }

  /** `os.path.isdir` of an entry: a directory or a link to one. */
  predicate IsDirKind(k: Kind)
  {
    k == Directory || k == Symlink(ToDirectory)
  }

  /** `os.path.islink` of an entry. */
  predicate IsLinkKind(k: Kind)
  {
    k.Symlink?
  }

  predicate IsDir(fs: Fs, path: string)
  {
    path in fs.dirs
  }

  /** `os.path.isfile(os.path.join(dir, name))`. */
  predicate IsFileIn(fs: Fs, dir: string, name: string)
  {
    dir in fs.dirs && exists k | 0 <= k < |fs.dirs[dir]| :: fs.dirs[dir][k].name == name && IsFileKind(fs.dirs[dir][k].kind)
  }

  /** `os.path.isfile(path)`. */
  predicate IsFile(fs: Fs, path: string)
  {
    IsFileIn(fs, Dirname(path), Basename(path))
  }

  /** The listing of a directory, empty for a missing one. */
  function Listing(fs: Fs, dir: string): (entries: seq<Entry>)
    ensures IsDir(fs, dir) ==> entries == fs.dirs[dir]
    ensures !IsDir(fs, dir) ==> entries == []
  {
    if dir in fs.dirs then fs.dirs[dir] else []
  }
}
