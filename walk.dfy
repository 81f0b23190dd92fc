/**
 The directory walk and the path arithmetic both pipelines apply to it.
 `os.walk` becomes a finite sequence of entries in walk order; each entry is a
 file: the directory it sits in (relative to the scanned directory, "" for the
 scanned directory itself), its base name and its bytes.
 */
module Walk {
  import opened Hasher

  type Path = string

  datatype Entry = Entry(dirRel: Path, name: string, contents: Bytes)

  /** What POSIX `os.path.join(a, b)` puts in front of a relative `b`. */
  function DirPrefix(a: Path): Path
  {
    if a == "" || a[|a| - 1] == '/' then a else a + "/"
  }

  /** POSIX `os.path.join(a, b)` for a relative `b`. */
  function Join(a: Path, b: Path): Path
  {
    DirPrefix(a) + b
  }

  /** Python's `s.startswith(prefix)`: a textual test, not a path-component test. */
  predicate StartsWith(s: string, prefix: string)
  {
    |prefix| <= |s| && s[..|prefix|] == prefix
  }

  /** The `root` that `os.walk(directory)` reports for the directory holding an entry. */
  function WalkRoot(directory: Path, dirRel: Path): Path
  {
    if dirRel == "" then directory else Join(directory, dirRel)
  }

  /** `os.path.join(root, file)`: the path both pipelines open. */
  function FilePath(directory: Path, e: Entry): Path
  {
    Join(WalkRoot(directory, e.dirRel), e.name)
  }

  /** The entry's path relative to the scanned directory, as `os.path.relpath` gives it. */
  function RelPath(e: Entry): Path
  {
    Join(e.dirRel, e.name)
  }

  /** A walk never lists the same file twice. */
  predicate DistinctPaths(walk: seq<Entry>)
  {
    forall i, j :: 0 <= i < j < |walk| ==> RelPath(walk[i]) != RelPath(walk[j])
  }

  /** The generator's key for each file: `os.path.join(root, file)` under the scanned directory. */
  function JoinedPath(directory: Path): Entry -> Path
  {
    e => FilePath(directory, e)
  }

  /** The verifier's key for each file: its path relative to the scanned directory. */
  function RelativePath(): Entry -> Path
  {
    e => RelPath(e)
  }

  /** No two walked files share a key. */
  predicate KeysDistinct(key: Entry -> Path, walk: seq<Entry>)
  {
    forall i, j :: 0 <= i < j < |walk| ==> key(walk[i]) != key(walk[j])
  }

  /**
   The path the generator keys a file by is the scanned directory joined with
   the relative path the verifier looks it up by: the two agree only when the
   directory is "".
   */
  lemma FilePathIsJoinOfRelPath(directory: Path, e: Entry)
    ensures FilePath(directory, e) == Join(directory, RelPath(e))
    ensures directory != "" ==> FilePath(directory, e) != RelPath(e)
  {
    if e.dirRel != "" {
      var x := DirPrefix(directory) + e.dirRel;
      assert x[|x| - 1] == e.dirRel[|e.dirRel| - 1];
      assert DirPrefix(x) == DirPrefix(directory) + DirPrefix(e.dirRel);
    }
  }

  /** Joining onto one directory keeps different relative paths apart. */
  lemma JoinInjective(directory: Path, p: Path, q: Path)
    requires Join(directory, p) == Join(directory, q)
    ensures p == q
  {
    var d := DirPrefix(directory);
    assert p == (d + p)[|d|..];
    assert q == (d + q)[|d|..];
  }

  /** Files with different relative paths have different generator paths. */
  lemma FilePathInjective(directory: Path, e1: Entry, e2: Entry)
    requires RelPath(e1) != RelPath(e2)
    ensures FilePath(directory, e1) != FilePath(directory, e2)
  {
    FilePathIsJoinOfRelPath(directory, e1);
    FilePathIsJoinOfRelPath(directory, e2);
    if FilePath(directory, e1) == FilePath(directory, e2) {
      JoinInjective(directory, RelPath(e1), RelPath(e2));
    }
  }

  /** A walk that lists each file once gives distinct keys in both forms. */
  lemma DistinctPathsGiveDistinctKeys(directory: Path, walk: seq<Entry>)
    requires DistinctPaths(walk)
    ensures KeysDistinct(JoinedPath(directory), walk)
    ensures KeysDistinct(RelativePath(), walk)
  {
    forall i, j | 0 <= i < j < |walk|
      ensures JoinedPath(directory)(walk[i]) != JoinedPath(directory)(walk[j])
    {
      FilePathInjective(directory, walk[i], walk[j]);
    }
  }

}
