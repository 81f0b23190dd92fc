/**
 The two pipelines together: a manifest written by the generator and read by
 the verifier, and a concrete run with one unchanged and one modified file.
 */
module EndToEnd {
  import opened Wrappers
  import opened Hasher
  import opened Walk
  import opened Generator
  import opened Verifier

  /** Bytes of the ASCII strings used in the examples below. */
  const Hello: Bytes := [0x68, 0x65, 0x6c, 0x6c, 0x6f]
  const World: Bytes := [0x77, 0x6f, 0x72, 0x6c, 0x64]
  const Wrong: Bytes := [0x77, 0x72, 0x6f, 0x6e, 0x67]

  /**
   As written, the generator keys a file by the scanned directory joined with
   its relative path, while the verifier looks it up by the relative path
   alone. For a one-file tree scanned under any non-empty directory name the
   manifest holds the file, yet the verifier finds no entry for it and moves
   it, unhashed, to the unknown folder.
   */
  lemma GeneratedManifestMissesLookup(directory: Path, e: Entry, exclude: seq<string>, s: State, cfg: Config)
    requires directory != "" && e.name !in exclude
    requires cfg.manifest == Checksums(JoinedPath(directory), [e], exclude, cfg.digest)
    requires !StartsWith(RelPath(e), cfg.excludeFolder)
    ensures FilePath(directory, e) in cfg.manifest
    ensures RelPath(e) !in cfg.manifest
    ensures Classify(cfg, Listing([e])[0]) == Unknown
    ensures RelPath(e) !in Run(s, cfg, Listing([e])).live
    ensures e.name in FolderOf(Run(s, cfg, Listing([e])).folders, cfg.unknownFolder)
  {
    FilePathIsJoinOfRelPath(directory, e);
    ChecksumsKeys(JoinedPath(directory), [e], exclude, cfg.digest, FilePath(directory, e));
    ChecksumsKeys(JoinedPath(directory), [e], exclude, cfg.digest, RelPath(e));
    UnknownFileMoved(s, cfg, Listing([e]), 0);
  }

  /** The same, on a concrete tree: `game/a.txt` scanned as directory "game". */
  lemma GeneratedManifestMissesLookupExample(digest: Bytes -> string)
    ensures var e := Entry("", "a.txt", Hello);
            var cfg := Config(Checksums(JoinedPath("game"), [e], [".local_storage"], digest), digest, ".local_storage", "outdated", "unknown");
            && cfg.manifest == map["game/a.txt" := digest(Hello)]
            && Classify(cfg, Listing([e])[0]) == Unknown
  {
    var e := Entry("", "a.txt", Hello);
    assert [e][..0] == [];
    assert FilePath("game", e) == "game/a.txt";
    assert RelPath(e) == "a.txt";
  }

  /** The manifest keyed as the verifier looks files up: by path relative to the scanned directory. */
  function RelativeChecksums(walk: seq<Entry>, exclude: seq<string>, digest: Bytes -> string): map<Path, string>
  {
    Checksums(RelativePath(), walk, exclude, digest)
  }

  /**
   With manifest keys relative to the scanned directory, the round trip holds:
   verifying an unmodified tree against its own manifest classifies every file
   excluded or matched, moves nothing and counts no outdated or unknown file.
   Every file left out of the manifest by name must be under the exclusion
   prefix, since the verifier would otherwise treat it as unknown.
   */
  lemma CorrectedManifestRoundTrip(s: State, cfg: Config, walk: seq<Entry>, exclude: seq<string>)
    requires DistinctPaths(walk)
    requires cfg.manifest == RelativeChecksums(walk, exclude, cfg.digest)
    requires forall i :: 0 <= i < |walk| ==> walk[i].name !in exclude || StartsWith(RelPath(walk[i]), cfg.excludeFolder)
    ensures forall i :: 0 <= i < |walk| ==> Classify(cfg, Listing(walk)[i]) in {Excluded, Matched}
    ensures Run(s, cfg, Listing(walk)) == s
    ensures CountOf(cfg, Listing(walk), Outdated) == 0 && CountOf(cfg, Listing(walk), Unknown) == 0
    ensures !Crashes(cfg, Listing(walk))
  {
    var files := Listing(walk);
    DistinctPathsGiveDistinctKeys("", walk);
    forall i | 0 <= i < |walk|
      ensures Classify(cfg, files[i]) in {Excluded, Matched}
    {
      if walk[i].name !in exclude {
        ChecksumsValues(RelativePath(), walk, exclude, cfg.digest, i);
      }
    }
    NoMoveNoChange(s, cfg, files);
    if |cfg.manifest| == 0 {
      assert cfg.manifest == map[];
      forall i | 0 <= i < |files|
        ensures Classify(cfg, files[i]) == Excluded
      {
        assert Classify(cfg, files[i]) in {Excluded, Matched};
      }
    }
  }

  /**
   One unchanged and one modified file: `a.txt` holds "hello" and `b.txt`
   "world"; the manifest stores the digest of "hello" for `a.txt` and that of
   "wrong" for `b.txt`. When the digest tells "world" from "wrong", `a.txt`
   stays and `b.txt` ends up in the outdated folder.
   */
  lemma ModifiedFileScenario(digest: Bytes -> string)
    requires digest(World) != digest(Wrong)
    ensures var a := Entry("", "a.txt", Hello);
            var b := Entry("", "b.txt", World);
            var cfg := Config(map["a.txt" := digest(Hello), "b.txt" := digest(Wrong)], digest, ".local_storage", "outdated", "unknown");
            var s := State(map["a.txt" := Hello, "b.txt" := World], map[]);
            Run(Prepare(s, cfg), cfg, Listing([a, b]))
              == State(map["a.txt" := Hello], map["outdated" := map["b.txt" := World], "unknown" := map[]])
  {
    var a := Entry("", "a.txt", Hello);
    var b := Entry("", "b.txt", World);
    var cfg := Config(map["a.txt" := digest(Hello), "b.txt" := digest(Wrong)], digest, ".local_storage", "outdated", "unknown");
    var s := State(map["a.txt" := Hello, "b.txt" := World], map[]);
    assert RelPath(a) == "a.txt" && RelPath(b) == "b.txt";
    var la := Listed("a.txt", "a.txt", Hello);
    var lb := Listed("b.txt", "b.txt", World);
    assert Listing([a, b]) == [la, lb];
    assert Classify(cfg, la) == Matched;
    assert Classify(cfg, lb) == Outdated;
    assert [la, lb][..1] == [la];
    assert [la][..0] == [];
    var p := Prepare(s, cfg);
    assert p == State(s.live, map["outdated" := map[], "unknown" := map[]]);
    assert Run(p, cfg, [la]) == p;
    assert Run(p, cfg, [la, lb]) == MoveTo(p, "b.txt", World, "outdated", "b.txt");
    assert p.live - {"b.txt"} == map["a.txt" := Hello];
  }

}
