/**
 The manifest builder `get_file_checksums`: a dictionary from the path of every
 walked file whose base name is not excluded to the digest of its bytes. The
 dictionary is specified for any way of naming files (`key`); the builder as
 written names them by `os.path.join(root, file)`.
 */
module Generator {
  import opened Wrappers
  import opened Hasher
  import opened Walk

  /** A missing exclusion list is an empty one. */
  function ExcludeList(excludeFiles: Option<seq<string>>): seq<string>
  {
    match excludeFiles
    case None => []
    case Some(names) => names
  }

  /** The dictionary after the given prefix of the walk: later entries overwrite earlier ones. */
  function Checksums(key: Entry -> Path, walk: seq<Entry>, exclude: seq<string>, digest: Bytes -> string): map<Path, string>
    decreases |walk|
  {
    if walk == [] then map[]
    else
      var e := walk[|walk| - 1];
      var m := Checksums(key, walk[..|walk| - 1], exclude, digest);
      if e.name in exclude then m else m[key(e) := digest(e.contents)]
  }

  /** The number of walked files whose base name is not excluded. */
  function IncludedCount(walk: seq<Entry>, exclude: seq<string>): nat
    decreases |walk|
  {
    if walk == [] then 0
    else IncludedCount(walk[..|walk| - 1], exclude) + (if walk[|walk| - 1].name in exclude then 0 else 1)
  }

  /**
   `get_file_checksums`. The dictionary is returned together with the two
   progress counters, `total_files` and `scanned_files`.
   */
  method GetFileChecksums(directory: Path, walk: seq<Entry>, excludeFiles: Option<seq<string>>, digest: Bytes -> string)
    returns (checksums: map<Path, string>, totalFiles: nat, scannedFiles: nat)
    ensures checksums == Checksums(JoinedPath(directory), walk, ExcludeList(excludeFiles), digest)
    ensures totalFiles == |walk|
    ensures scannedFiles == IncludedCount(walk, ExcludeList(excludeFiles)) <= totalFiles
    ensures DistinctPaths(walk) ==> scannedFiles == |checksums|
  {
    var exclude := ExcludeList(excludeFiles);
    totalFiles := |walk|;
    scannedFiles := 0;
    checksums := map[];
    var i := 0;
    while i < |walk|
      invariant 0 <= i <= |walk|
      invariant checksums == Checksums(JoinedPath(directory), walk[..i], exclude, digest)
      invariant scannedFiles == IncludedCount(walk[..i], exclude) <= i
    {
      var e := walk[i];
      var filePath := FilePath(directory, e);
      ChecksumsStep(JoinedPath(directory), walk, exclude, digest, i, filePath);
      if e.name !in exclude {
        var hex, _ := CalculateSha256(e.contents, digest);
        checksums := checksums[filePath := hex];
        scannedFiles := scannedFiles + 1;
      }
      i := i + 1;
    }
    assert walk[..|walk|] == walk;
    ScannedIsManifestSize(directory, walk, exclude, digest);
  }

  /** Without repeated paths, every scanned file gives its own key. */
  lemma ScannedIsManifestSize(directory: Path, walk: seq<Entry>, exclude: seq<string>, digest: Bytes -> string)
    ensures DistinctPaths(walk) ==> |Checksums(JoinedPath(directory), walk, exclude, digest)| == IncludedCount(walk, exclude)
  {
    if DistinctPaths(walk) {
      DistinctPathsGiveDistinctKeys(directory, walk);
      ChecksumsSize(JoinedPath(directory), walk, exclude, digest);
    }
  }

  /** Scanning one more file extends the dictionary and the count by that file. */
  lemma ChecksumsStep(key: Entry -> Path, walk: seq<Entry>, exclude: seq<string>, digest: Bytes -> string, i: nat, k: Path)
    requires i < |walk| && k == key(walk[i])
    ensures Checksums(key, walk[..i + 1], exclude, digest) ==
            if walk[i].name in exclude then Checksums(key, walk[..i], exclude, digest)
            else Checksums(key, walk[..i], exclude, digest)[k := digest(walk[i].contents)]
    ensures IncludedCount(walk[..i + 1], exclude) ==
            IncludedCount(walk[..i], exclude) + if walk[i].name in exclude then 0 else 1
  {
    assert walk[..i + 1][..i] == walk[..i];
  }

  /** The keys are exactly the keys of the walked files whose base name is not excluded. */
  lemma {:induction false} ChecksumsKeys(key: Entry -> Path, walk: seq<Entry>, exclude: seq<string>, digest: Bytes -> string, k: Path)
    ensures k in Checksums(key, walk, exclude, digest) <==>
            exists i :: 0 <= i < |walk| && walk[i].name !in exclude && key(walk[i]) == k
    decreases |walk|
  {
    if walk != [] {
      var n := |walk| - 1;
      var prefix := walk[..n];
      ChecksumsKeys(key, prefix, exclude, digest, k);
      if k in Checksums(key, walk, exclude, digest) {
        if k in Checksums(key, prefix, exclude, digest) {
          var i :| 0 <= i < |prefix| && prefix[i].name !in exclude && key(prefix[i]) == k;
          assert walk[i] == prefix[i];
        } else {
          assert walk[n].name !in exclude && key(walk[n]) == k;
        }
      }
      if exists i :: 0 <= i < |walk| && walk[i].name !in exclude && key(walk[i]) == k {
        var i :| 0 <= i < |walk| && walk[i].name !in exclude && key(walk[i]) == k;
        if i < n {
          assert prefix[i] == walk[i];
        }
      }
    }
  }

  lemma KeysDistinctPrefix(key: Entry -> Path, walk: seq<Entry>, n: nat)
    requires KeysDistinct(key, walk) && n <= |walk|
    ensures KeysDistinct(key, walk[..n])
  {
    forall i, j | 0 <= i < j < n
      ensures key(walk[..n][i]) != key(walk[..n][j])
    {
      assert walk[..n][i] == walk[i] && walk[..n][j] == walk[j];
    }
  }

  /** A file not yet walked has no entry: its key differs from every earlier one. */
  lemma NewKeyIsFresh(key: Entry -> Path, walk: seq<Entry>, exclude: seq<string>, digest: Bytes -> string, i: nat)
    requires KeysDistinct(key, walk) && i < |walk|
    ensures key(walk[i]) !in Checksums(key, walk[..i], exclude, digest)
  {
    ChecksumsKeys(key, walk[..i], exclude, digest, key(walk[i]));
    forall j | 0 <= j < i
      ensures key(walk[..i][j]) != key(walk[i])
    {
      assert walk[..i][j] == walk[j];
    }
  }

  /** Each included file's entry holds the digest of its bytes. */
  lemma {:induction false} ChecksumsValues(key: Entry -> Path, walk: seq<Entry>, exclude: seq<string>, digest: Bytes -> string, i: nat)
    requires KeysDistinct(key, walk) && i < |walk| && walk[i].name !in exclude
    ensures key(walk[i]) in Checksums(key, walk, exclude, digest)
    ensures Checksums(key, walk, exclude, digest)[key(walk[i])] == digest(walk[i].contents)
    decreases |walk|
  {
    var n := |walk| - 1;
    if i < n {
      var prefix := walk[..n];
      assert prefix[i] == walk[i];
      KeysDistinctPrefix(key, walk, n);
      ChecksumsValues(key, prefix, exclude, digest, i);
      assert key(walk[i]) != key(walk[n]);
    }
  }

  /** A file whose base name is excluded gets no entry, wherever it lies in the tree. */
  lemma ExcludedNameHasNoKey(key: Entry -> Path, walk: seq<Entry>, exclude: seq<string>, digest: Bytes -> string, i: nat)
    requires KeysDistinct(key, walk) && i < |walk| && walk[i].name in exclude
    ensures key(walk[i]) !in Checksums(key, walk, exclude, digest)
  {
    ChecksumsKeys(key, walk, exclude, digest, key(walk[i]));
  }

  /** One entry per included file: the dictionary's size is the included count. */
  lemma {:induction false} ChecksumsSize(key: Entry -> Path, walk: seq<Entry>, exclude: seq<string>, digest: Bytes -> string)
    requires KeysDistinct(key, walk)
    ensures |Checksums(key, walk, exclude, digest)| == IncludedCount(walk, exclude)
    decreases |walk|
  {
    if walk != [] {
      var n := |walk| - 1;
      KeysDistinctPrefix(key, walk, n);
      ChecksumsSize(key, walk[..n], exclude, digest);
      NewKeyIsFresh(key, walk, exclude, digest, n);
    }
  }

  /**
   The keys the builder writes are the scanned directory joined with each
   file's relative path, and each holds the digest of that file's bytes.
   */
  lemma ManifestKeysArePrefixed(directory: Path, walk: seq<Entry>, exclude: seq<string>, digest: Bytes -> string, i: nat)
    requires DistinctPaths(walk) && i < |walk| && walk[i].name !in exclude
    ensures Join(directory, RelPath(walk[i])) in Checksums(JoinedPath(directory), walk, exclude, digest)
    ensures Checksums(JoinedPath(directory), walk, exclude, digest)[Join(directory, RelPath(walk[i]))] == digest(walk[i].contents)
  {
    DistinctPathsGiveDistinctKeys(directory, walk);
    ChecksumsValues(JoinedPath(directory), walk, exclude, digest, i);
    FilePathIsJoinOfRelPath(directory, walk[i]);
  }

  /** With no exclusion list every walked file gets an entry. */
  lemma NoExclusionKeepsEveryFile(directory: Path, walk: seq<Entry>, digest: Bytes -> string)
    requires DistinctPaths(walk)
    ensures IncludedCount(walk, ExcludeList(None)) == |walk|
    ensures forall i :: 0 <= i < |walk| ==>
              FilePath(directory, walk[i]) in Checksums(JoinedPath(directory), walk, ExcludeList(None), digest)
  {
    IncludedCountWithoutExclusions(walk);
    DistinctPathsGiveDistinctKeys(directory, walk);
    forall i | 0 <= i < |walk|
      ensures FilePath(directory, walk[i]) in Checksums(JoinedPath(directory), walk, ExcludeList(None), digest)
    {
      ChecksumsValues(JoinedPath(directory), walk, [], digest, i);
    }
  }

  lemma {:induction false} IncludedCountWithoutExclusions(walk: seq<Entry>)
    ensures IncludedCount(walk, []) == |walk|
    decreases |walk|
  {
    if walk != [] {
      IncludedCountWithoutExclusions(walk[..|walk| - 1]);
    }
  }

}
