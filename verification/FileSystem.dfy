/** What the walkers are told by the kernel: directory entries, stat answers and
    directories that can be opened. Directories are numbered; an entry may open a
    directory that is also one of its ancestors, so the graph may be cyclic. */
module FileSystem {
  import opened Basics

  /** `Any` is every kind that is not one of the three the program names. */
  datatype EntryType = Any | File | Directory | Symlink

  /** The `d_type` byte of a directory entry; `DtOther` is DT_UNKNOWN and all other values. */
  datatype DType = DtReg | DtDir | DtLnk | DtOther

  datatype Stat = Stat(kind: EntryType, size: int, mtime: int, mode: nat, device: int)

  const FILE_STAT: Stat := Stat(File, 0, 0, 0, 0)
  const DIRECTORY_STAT: Stat := Stat(Directory, 0, 0, 0, 0)

  /** Entry names: not empty, no slash, no NUL, and neither "." nor "..", which the reader omits. */
  type Name = s: string | s != "" && '/' !in s && '\0' !in s && s != "." && s != ".." witness "a"

  /** `lstat`/`lopen` answer when symlinks are not followed, `stat`/`open` when they are;
      `None` is a call that fails. */
  datatype RawEntry = RawEntry(
    name: Name, dtype: DType, lstat: Option<Stat>, stat: Option<Stat>, lopen: Option<nat>, open: Option<nat>)

  function TypeOfDType(d: DType): EntryType {
    match d
    case DtReg => File
    case DtDir => Directory
    case DtLnk => Symlink
    case DtOther => Any
  }

  /** The kernel does not contradict itself: a known `d_type` is the type `lstat` reports,
      and `stat`, which follows links, never reports a link. */
  predicate Plausible(e: RawEntry) {
    && (e.lstat.Some? ==>
          && (e.dtype == DtReg ==> e.lstat.value.kind == File)
          && (e.dtype == DtDir ==> e.lstat.value.kind == Directory)
          && (e.dtype == DtLnk ==> e.lstat.value.kind == Symlink))
    && (e.stat.Some? ==>
          && e.stat.value.kind != Symlink
          && (e.dtype == DtReg ==> e.stat.value.kind == File)
          && (e.dtype == DtDir ==> e.stat.value.kind == Directory))
  }

  type Entry = e: RawEntry | Plausible(e) witness RawEntry("a", DtReg, None, None, None, None)

  /** A path given on the command line: no NUL, as it is a C string. */
  type RootPath = s: string | '\0' !in s

  datatype Root = Root(path: RootPath, lstat: Option<Stat>, stat: Option<Stat>, lopen: Option<nat>, open: Option<nat>)

  /** `fnmatch` with pattern, subject and the case-folding flag. */
  type Matcher = (string, string, bool) -> bool

  /** `device` is the device of an opened directory; `cwdStat` is what `fstatat(AT_FDCWD, name)` answers,
      following links or not; `dot` is the root used when none is given. */
  datatype World = World(
    directories: map<nat, seq<Entry>>, device: nat -> int, glob: Matcher,
    cwdStat: (string, bool) -> Option<Stat>, dot: Root)

  function Entries(w: World, id: nat): seq<Entry> {
    if id in w.directories then w.directories[id] else []
  }
}
