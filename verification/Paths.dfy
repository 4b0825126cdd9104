/** Path strings and the fixed buffer they are built in. */
module Paths {
  import opened FileSystem

  const PATH_CAPACITY: nat := 4096

  function Join(path: string, name: string): string {
    if path != "" && path[|path| - 1] != '/' then path + "/" + name else path + name
  }

  /** The bytes a C function sees when it is handed a pointer to the start of `s`. */
  function CString(s: string): string {
    if s == "" || s[0] == '\0' then "" else [s[0]] + CString(s[1..])
  }

  lemma {:induction false} CStringStopsAtNul(s: string, n: nat)
    requires n < |s| && s[n] == '\0' && '\0' !in s[..n]
    ensures CString(s) == s[..n]
  {
    if n == 0 {
    } else {
      assert s[0] == s[..n][0];
      assert s[1..][..n - 1] == s[..n][1..];
      CStringStopsAtNul(s[1..], n - 1);
      assert s[..n] == [s[0]] + s[1..][..n - 1];
    }
  }

  /** `current_length + additional + 1 > capacity` in the source: on success the buffer holds the
      joined path and a NUL; on failure nothing is written. Bytes before `pathLength` never change. */
  method AppendPath(buffer: array<char>, pathLength: nat, name: string) returns (ok: bool, newLength: nat)
    requires pathLength < buffer.Length
    modifies buffer
    ensures ok <==> |Join(old(buffer[..pathLength]), name)| < buffer.Length
    ensures ok ==> newLength == |Join(old(buffer[..pathLength]), name)| && buffer[newLength] == '\0'
    ensures ok ==> buffer[..newLength] == Join(old(buffer[..pathLength]), name)
    ensures !ok ==> newLength == pathLength && buffer[..] == old(buffer[..])
    ensures buffer[..pathLength] == old(buffer[..pathLength])
  {
    newLength := pathLength;
    var needsSeparator := newLength > 0 && buffer[newLength - 1] != '/';
    var additional := (if needsSeparator then 1 else 0) + |name|;
    if newLength + additional + 1 > buffer.Length {
      return false, newLength;
    }
    if needsSeparator {
      buffer[newLength] := '/';
      newLength := newLength + 1;
    }
    forall i | 0 <= i < |name| {
      buffer[newLength + i] := name[i];
    }
    newLength := newLength + |name|;
    buffer[newLength] := '\0';
    ok := true;
  }

  method Truncate(buffer: array<char>, originalLength: nat)
    requires originalLength < buffer.Length
    modifies buffer
    ensures buffer[originalLength] == '\0'
    ensures buffer[..originalLength] == old(buffer[..originalLength])
    ensures buffer[originalLength + 1..] == old(buffer[originalLength + 1..])
  {
    buffer[originalLength] := '\0';
  }

  method NewBuffer(path: RootPath) returns (buffer: array<char>)
    requires |path| < PATH_CAPACITY
    ensures fresh(buffer) && buffer.Length == PATH_CAPACITY
    ensures buffer[..|path|] == path && buffer[|path|] == '\0'
  {
    buffer := new char[PATH_CAPACITY];
    forall i | 0 <= i < |path| {
      buffer[i] := path[i];
    }
    buffer[|path|] := '\0';
  }

  /** A joined path begins with the directory's path and ends in the name; between them is a slash exactly
      when the directory's path is not empty and does not end in one. */
  lemma JoinIsTight(path: string, name: Name)
    ensures var j := Join(path, name);
            && path <= j && |path| + |name| <= |j| <= |path| + 1 + |name| && j[|j| - |name|..] == name
            && (|j| == |path| + 1 + |name| <==> path != "" && path[|path| - 1] != '/')
            && (|j| == |path| + 1 + |name| ==> j[|path|] == '/')
  {
  }

  predicate IsBasename(path: string, basename: string) {
    && '/' !in basename
    && |basename| <= |path|
    && path[|path| - |basename|..] == basename
    && (|basename| < |path| ==> path[|path| - |basename| - 1] == '/')
  }

  /** The bytes after the last slash, or the whole path when there is none. */
  function BasenameOf(path: string): string {
    if path == "" || path[|path| - 1] == '/' then "" else BasenameOf(path[..|path| - 1]) + [path[|path| - 1]]
  }

  lemma {:induction false} BasenameOfIsBasename(path: string)
    ensures IsBasename(path, BasenameOf(path))
  {
    if path != "" && path[|path| - 1] != '/' {
      var front, last := path[..|path| - 1], path[|path| - 1];
      BasenameOfIsBasename(front);
      BasenameGrows(front, BasenameOf(front), last);
      assert path == front + [last];
    }
  }

  lemma BasenameGrows(front: string, basename: string, last: char)
    requires IsBasename(front, basename) && last != '/'
    ensures IsBasename(front + [last], basename + [last])
  {
    var path := front + [last];
    assert path[|front| - |basename|..] == front[|front| - |basename|..] + [last];
  }

  lemma BasenameIsUnique(path: string, a: string, b: string)
    requires IsBasename(path, a) && IsBasename(path, b)
    ensures a == b
  {
  }

  /** The scan of `bc_core_find_last_byte` from the end. */
  method Basename(path: string) returns (basename: string)
    ensures basename == BasenameOf(path)
  {
    var i := |path|;
    while i > 0 && path[i - 1] != '/'
      invariant 0 <= i <= |path|
      invariant '/' !in path[i..]
    {
      i := i - 1;
    }
    basename := path[i..];
    BasenameOfIsBasename(path);
    BasenameIsUnique(path, basename, BasenameOf(path));
  }

  /** The basename recovered from a joined path is the entry name it was joined with. */
  lemma BasenameOfJoin(path: string, name: Name)
    ensures BasenameOf(Join(path, name)) == name
  {
    var joined := Join(path, name);
    assert joined[|joined| - |name|..] == name;
    BasenameOfIsBasename(joined);
    BasenameIsUnique(joined, BasenameOf(joined), name);
  }
}
