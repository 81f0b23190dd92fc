/**
 The classifier and mover `verify_and_move_files`. Each walked file is
 excluded (its relative path starts with the exclusion prefix), matched (its
 relative path is a manifest key and its digest equals the stored string),
 outdated (a key with a different digest: moved to the outdated folder) or
 unknown (not a key: moved, unhashed, to the unknown folder). Moves keep only
 the base name.
 */
module Verifier {
  import opened Wrappers
  import opened Hasher
  import opened Walk

  datatype Outcome = Excluded | Matched | Outdated | Unknown

  /** The parameters of one run; the manifest is read-only throughout. */
  datatype Config = Config(
    manifest: map<Path, string>,
    digest: Bytes -> string,
    excludeFolder: string,
    outdatedFolder: Path,
    unknownFolder: Path)

  /** A walked file as the loop sees it: `relative_path`, the base name `file`, and its bytes. */
  datatype Listed = Listed(path: Path, name: string, contents: Bytes)

  /** The walk with `os.path.relpath` applied to every file. */
  function Listing(walk: seq<Entry>): seq<Listed>
  {
    seq(|walk|, i requires 0 <= i < |walk| => Listed(RelPath(walk[i]), walk[i].name, walk[i].contents))
  }

  /** Each listed file is the walked file under its relative path. */
  lemma ListingAt(walk: seq<Entry>, i: nat)
    requires i < |walk|
    ensures Listing(walk)[i] == Listed(Join(walk[i].dirRel, walk[i].name), walk[i].name, walk[i].contents)
  {
  }

  /**
   The listing repeats no path exactly when the walk lists no file twice, the
   property the generator's lemmas assume.
   */
  lemma ListingDistinct(walk: seq<Entry>)
    ensures DistinctListed(Listing(walk)) <==> DistinctPaths(walk)
  {
    var files := Listing(walk);
    forall i, j | 0 <= i < j < |walk|
      ensures files[i].path == RelPath(walk[i]) && files[j].path == RelPath(walk[j])
    {
    }
  }

  /**
   The file system as the verifier sees it: the scanned tree (files by path
   relative to the scanned directory) and the folders outside it that files
   are moved into (by path, each holding files by name).
   */
  datatype State = State(live: map<Path, Bytes>, folders: map<Path, map<string, Bytes>>)

  /**
   The listing describes the tree `live`: no path twice, and every listed file
   is in the tree with the bytes the listing reports. A real walk of the tree
   gives this.
   */
  predicate Agrees(files: seq<Listed>, live: map<Path, Bytes>)
  {
    DistinctListed(files) && Pending(files, live, 0)
  }

  /** No two listed files share a relative path. */
  predicate DistinctListed(files: seq<Listed>)
  {
    forall i, j :: 0 <= i < j < |files| ==> files[i].path != files[j].path
  }

  /** The files from index `i` on are still in the tree with their listed bytes. */
  predicate Pending(files: seq<Listed>, live: map<Path, Bytes>, i: nat)
  {
    forall j :: i <= j < |files| ==> files[j].path in live && live[files[j].path] == files[j].contents
  }

  /** The files of a folder; an absent folder holds none. */
  function FolderOf(folders: map<Path, map<string, Bytes>>, folder: Path): map<string, Bytes>
  {
    if folder in folders then folders[folder] else map[]
  }

  /**
   `if not os.path.exists(folder): os.makedirs(folder)`: creating a folder that
   is already there is skipped, so nothing that exists is changed or emptied.
   */
  function EnsureFolder(s: State, folder: Path): (r: State)
    ensures folder in r.folders
    ensures folder in s.folders ==> r == s
    ensures r.live == s.live
    ensures r.folders[folder] == FolderOf(s.folders, folder)
    ensures forall f :: f in s.folders ==> f in r.folders && r.folders[f] == s.folders[f]
    ensures forall f :: f in r.folders ==> f in s.folders || f == folder
  {
    if folder in s.folders then s else State(s.live, s.folders[folder := map[]])
  }

  /** Both quarantine folders are created, outdated first. */
  function Prepare(s: State, cfg: Config): State
  {
    EnsureFolder(EnsureFolder(s, cfg.outdatedFolder), cfg.unknownFolder)
  }

  /** `shutil.move(full_path, os.path.join(folder, name))`: the destination is overwritten. */
  function MoveTo(s: State, src: Path, contents: Bytes, folder: Path, name: string): State
  {
    State(s.live - {src}, s.folders[folder := FolderOf(s.folders, folder)[name := contents]])
  }

  /** The three-way decision, with exclusion tested first. */
  function Classify(cfg: Config, f: Listed): Outcome
  {
    if StartsWith(f.path, cfg.excludeFolder) then Excluded
    else if f.path !in cfg.manifest then Unknown
    else if cfg.digest(f.contents) != cfg.manifest[f.path] then Outdated
    else Matched
  }

  /** The folder a file is moved into, if it is moved. */
  function Destination(cfg: Config, f: Listed): Option<Path>
  {
    match Classify(cfg, f)
    case Outdated => Some(cfg.outdatedFolder)
    case Unknown => Some(cfg.unknownFolder)
    case _ => None
  }

  function Step(s: State, cfg: Config, f: Listed): State
  {
    match Destination(cfg, f)
    case None => s
    case Some(folder) => MoveTo(s, f.path, f.contents, folder, f.name)
  }

  /** The file system after the loop has handled the given files in order. */
  function Run(s: State, cfg: Config, files: seq<Listed>): State
    decreases |files|
  {
    if files == [] then s else Step(Run(s, cfg, files[..|files| - 1]), cfg, files[|files| - 1])
  }

  /** How many of the files get outcome `o`. */
  function CountOf(cfg: Config, files: seq<Listed>, o: Outcome): nat
    decreases |files|
  {
    if files == [] then 0
    else CountOf(cfg, files[..|files| - 1], o) + (if Classify(cfg, files[|files| - 1]) == o then 1 else 0)
  }

  /** How a run ends: with its `scanned_files` counter, or with `ZeroDivisionError` from the progress bar. */
  datatype Report = Finished(scanned: nat) | DivisionByZero

  /**
   The progress bar divides `scanned_files` by `total_files`, the number of
   manifest entries, for every file that is not excluded. With an empty
   manifest the run therefore fails at the first such file.
   */
  ghost predicate Crashes(cfg: Config, files: seq<Listed>)
  {
    |cfg.manifest| == 0 && exists i :: 0 <= i < |files| && Classify(cfg, files[i]) != Excluded
  }

  /** The files of a real file system, updated in place by the verifier. */
  class FileSystem {
    var live: map<Path, Bytes>
    var folders: map<Path, map<string, Bytes>>

    constructor (live: map<Path, Bytes>, folders: map<Path, map<string, Bytes>>)
      ensures this.live == live && this.folders == folders
    {
      this.live := live;
      this.folders := folders;
    }

    function View(): State
      reads this
    {
      State(live, folders)
    }

    /** `os.path.exists` followed, when absent, by `os.makedirs`. */
    method MakeDirsIfAbsent(folder: Path)
      modifies this
      ensures View() == EnsureFolder(old(View()), folder)
    {
      if folder !in folders {
        folders := folders[folder := map[]];
      }
    }

    /** `shutil.move` of a file of the scanned tree into an existing folder, under `name`. */
    method Move(src: Path, folder: Path, name: string)
      requires src in live && folder in folders
      modifies this
      ensures View() == MoveTo(old(View()), src, old(live)[src], folder, name)
    {
      var contents := live[src];
      live := live - {src};
      folders := folders[folder := folders[folder][name := contents]];
    }
  }

  /**
   The body of the loop for one walked file: skip it if excluded, otherwise
   hash it only if its relative path is a manifest key, and move it if it is
   outdated or unknown. Every branch after the exclusion test draws the
   progress bar, which divides by `totalFiles` before any move; `crashed`
   reports that division failing, with the file system left as it was.
   */
  method HandleFile(fs: FileSystem, cfg: Config, f: Listed, totalFiles: nat) returns (outcome: Outcome, crashed: bool)
    requires f.path in fs.live && fs.live[f.path] == f.contents
    requires cfg.outdatedFolder in fs.folders && cfg.unknownFolder in fs.folders
    modifies fs
    ensures outcome == Classify(cfg, f)
    ensures crashed <==> totalFiles == 0 && outcome != Excluded
    ensures crashed ==> fs.View() == old(fs.View())
    ensures !crashed ==> fs.View() == Step(old(fs.View()), cfg, f)
  {
    crashed := false;
    if StartsWith(f.path, cfg.excludeFolder) {
      return Excluded, crashed;
    }
    if f.path in cfg.manifest {
      var actualHash, _ := CalculateSha256(fs.live[f.path], cfg.digest);
      var expectedHash := cfg.manifest[f.path];
      if actualHash != expectedHash {
        outcome := Outdated;
        if totalFiles == 0 {
          return outcome, true;
        }
        fs.Move(f.path, cfg.outdatedFolder, f.name);
      } else {
        outcome := Matched;
        if totalFiles == 0 {
          return outcome, true;
        }
      }
    } else {
      outcome := Unknown;
      if totalFiles == 0 {
        return outcome, true;
      }
      fs.Move(f.path, cfg.unknownFolder, f.name);
    }
  }

  /**
   `verify_and_move_files` after the manifest is loaded: create the two
   folders, then handle the walked files in order, each under its relative
   path. It ends with `scanned_files`, or with the division by zero that an
   empty manifest causes at the first file not excluded; either way the file
   system is left as the files handled so far made it.
   */
  method VerifyAndMoveFiles(fs: FileSystem, cfg: Config, walk: seq<Entry>) returns (report: Report)
    requires Agrees(Listing(walk), fs.live)
    modifies fs
    ensures report == DivisionByZero <==> Crashes(cfg, Listing(walk))
    ensures report == DivisionByZero ==> fs.View() == Prepare(old(fs.View()), cfg)
    ensures report.Finished? ==> fs.View() == Run(Prepare(old(fs.View()), cfg), cfg, Listing(walk))
    ensures report.Finished? ==> report.scanned == |walk| - CountOf(cfg, Listing(walk), Excluded)
  {
    fs.MakeDirsIfAbsent(cfg.outdatedFolder);
    fs.MakeDirsIfAbsent(cfg.unknownFolder);
    ghost var s0 := fs.View();
    ghost var files := Listing(walk);
    var totalFiles := |cfg.manifest|;
    var scanned := 0;
    var i := 0;
    while i < |walk|
      invariant 0 <= i <= |walk|
      invariant fs.View() == Run(s0, cfg, files[..i])
      invariant totalFiles == 0 ==> scanned == 0
      invariant scanned == i - CountOf(cfg, files[..i], Excluded)
    {
      var e := walk[i];
      var relativePath := Join(e.dirRel, e.name);
      var f := Listed(relativePath, e.name, e.contents);
      ListingAt(walk, i);
      NextFilePresent(s0, cfg, files, i);
      var outcome, crashed := HandleFile(fs, cfg, f, totalFiles);
      if crashed {
        ExcludedPrefixInert(s0, cfg, files, i);
        return DivisionByZero;
      }
      Advance(s0, cfg, files, i, outcome);
      if outcome != Excluded {
        scanned := scanned + 1;
      }
      i := i + 1;
    }
    assert files[..|walk|] == files;
    if totalFiles == 0 {
      AllOfOneOutcome(cfg, files, Excluded);
    }
    report := Finished(scanned);
  }

  /** Handling files that are all excluded changes nothing. */
  lemma ExcludedPrefixInert(s: State, cfg: Config, files: seq<Listed>, i: nat)
    requires i <= |files| && CountOf(cfg, files[..i], Excluded) == i
    ensures Run(s, cfg, files[..i]) == s
  {
    var prefix := files[..i];
    AllOfOneOutcome(cfg, prefix, Excluded);
    forall j | 0 <= j < |prefix|
      ensures Destination(cfg, prefix[j]) == None
    {
    }
    NoMoveNoChange(s, cfg, prefix);
  }

  /** A count that reaches the length of the listing means every file has that outcome. */
  lemma {:induction false} AllOfOneOutcome(cfg: Config, files: seq<Listed>, o: Outcome)
    requires CountOf(cfg, files, o) == |files|
    ensures forall j :: 0 <= j < |files| ==> Classify(cfg, files[j]) == o
    decreases |files|
  {
    if files != [] {
      var n := |files| - 1;
      var prefix := files[..n];
      assert CountOf(cfg, prefix, o) <= n by {
        CountAtMostLength(cfg, prefix, o);
      }
      AllOfOneOutcome(cfg, prefix, o);
      forall j | 0 <= j < n
        ensures Classify(cfg, files[j]) == o
      {
        assert prefix[j] == files[j];
      }
    }
  }

  /** No outcome is counted more often than there are files. */
  lemma {:induction false} CountAtMostLength(cfg: Config, files: seq<Listed>, o: Outcome)
    ensures CountOf(cfg, files, o) <= |files|
    decreases |files|
  {
    if files != [] {
      CountAtMostLength(cfg, files[..|files| - 1], o);
    }
  }

  /** A listing in which nothing is moved leaves the file system as it was. */
  lemma {:induction false} NoMoveNoChange(s: State, cfg: Config, files: seq<Listed>)
    requires forall i :: 0 <= i < |files| ==> Destination(cfg, files[i]) == None
    ensures Run(s, cfg, files) == s
    ensures CountOf(cfg, files, Outdated) == 0 && CountOf(cfg, files, Unknown) == 0
    decreases |files|
  {
    if files != [] {
      var n := |files| - 1;
      var prefix := files[..n];
      forall i | 0 <= i < |prefix|
        ensures Destination(cfg, prefix[i]) == None
      {
        assert prefix[i] == files[i];
      }
      NoMoveNoChange(s, cfg, prefix);
      assert Destination(cfg, files[n]) == None;
    }
  }

  /** Handling file `i` extends the run by that file and the count of its outcome by one. */
  lemma Advance(s: State, cfg: Config, files: seq<Listed>, i: nat, outcome: Outcome)
    requires i < |files| && outcome == Classify(cfg, files[i])
    ensures Run(s, cfg, files[..i + 1]) == Step(Run(s, cfg, files[..i]), cfg, files[i])
    ensures CountOf(cfg, files[..i + 1], Excluded) == CountOf(cfg, files[..i], Excluded) + if outcome == Excluded then 1 else 0
  {
    assert files[..i + 1][..i] == files[..i];
  }

  /** The next file to handle is still in the tree, and both folders still exist. */
  lemma NextFilePresent(s: State, cfg: Config, files: seq<Listed>, i: nat)
    requires Agrees(files, s.live) && i < |files|
    requires cfg.outdatedFolder in s.folders && cfg.unknownFolder in s.folders
    ensures var r := Run(s, cfg, files[..i]);
            && files[i].path in r.live && r.live[files[i].path] == files[i].contents
            && cfg.outdatedFolder in r.folders && cfg.unknownFolder in r.folders
  {
    RunKeepsPending(s, cfg, files, i);
  }

  /**
   While a listing without repeats is handled, the files not yet handled are
   still in the tree with their listed bytes, and folders are never removed.
   */
  lemma {:induction false} RunKeepsPending(s: State, cfg: Config, files: seq<Listed>, i: nat)
    requires Agrees(files, s.live) && i <= |files|
    ensures Pending(files, Run(s, cfg, files[..i]).live, i)
    ensures forall g :: g in s.folders ==> g in Run(s, cfg, files[..i]).folders
  {
    if i > 0 {
      RunKeepsPending(s, cfg, files, i - 1);
      assert files[..i][..i - 1] == files[..i - 1];
      var before := Run(s, cfg, files[..i - 1]);
      forall j | i <= j < |files|
        ensures files[j].path != files[i - 1].path
      {
      }
    } else {
      assert files[..0] == [];
    }
  }

  /** Every walked file has exactly one outcome. */
  lemma {:induction false} CountsPartition(cfg: Config, files: seq<Listed>)
    ensures CountOf(cfg, files, Excluded) + CountOf(cfg, files, Matched)
          + CountOf(cfg, files, Outdated) + CountOf(cfg, files, Unknown) == |files|
    decreases |files|
  {
    if files != [] {
      CountsPartition(cfg, files[..|files| - 1]);
    }
  }

  /** The relative paths that some listed file was moved away from. */
  ghost predicate Moved(cfg: Config, files: seq<Listed>, p: Path)
  {
    exists i :: 0 <= i < |files| && Destination(cfg, files[i]).Some? && files[i].path == p
  }

  /** A path was moved by all the files iff it was moved by the prefix or by the last file. */
  lemma MovedLast(cfg: Config, files: seq<Listed>, p: Path)
    requires files != []
    ensures Moved(cfg, files, p) <==>
            Moved(cfg, files[..|files| - 1], p) ||
            (Destination(cfg, files[|files| - 1]).Some? && files[|files| - 1].path == p)
  {
    var n := |files| - 1;
    var prefix := files[..n];
    if Moved(cfg, files, p) {
      var i :| 0 <= i < |files| && Destination(cfg, files[i]).Some? && files[i].path == p;
      if i < n {
        assert prefix[i] == files[i];
      }
    }
    if Moved(cfg, prefix, p) {
      var i :| 0 <= i < |prefix| && Destination(cfg, prefix[i]).Some? && prefix[i].path == p;
      assert files[i] == prefix[i];
    }
  }

  /**
   Nothing else changes in the scanned tree: a path is there after the run iff
   it was there before and no listed file was moved away from it, and the
   files left keep their bytes.
   */
  lemma {:induction false} RunLive(s: State, cfg: Config, files: seq<Listed>, p: Path)
    ensures p in Run(s, cfg, files).live <==> p in s.live && !Moved(cfg, files, p)
    ensures p in Run(s, cfg, files).live ==> Run(s, cfg, files).live[p] == s.live[p]
    decreases |files|
  {
    if files != [] {
      RunLive(s, cfg, files[..|files| - 1], p);
      MovedLast(cfg, files, p);
    }
  }

  /**
   The fate of one walked file in the scanned tree: it stays, with its bytes,
   iff it is excluded or matched; it is gone iff it is outdated or unknown.
   */
  lemma FileFate(s: State, cfg: Config, files: seq<Listed>, i: nat)
    requires Agrees(files, s.live) && i < |files|
    ensures var r := Run(s, cfg, files); var p := files[i].path;
            && (p in r.live <==> Classify(cfg, files[i]) in {Excluded, Matched})
            && (p in r.live ==> r.live[p] == files[i].contents)
  {
    var p := files[i].path;
    RunLive(s, cfg, files, p);
    if Moved(cfg, files, p) {
      var j :| 0 <= j < |files| && Destination(cfg, files[j]).Some? && files[j].path == p;
      assert j == i;
    }
    if Classify(cfg, files[i]) !in {Excluded, Matched} {
      assert Destination(cfg, files[i]).Some?;
    }
  }

  /** A file whose relative path starts with the exclusion prefix is left where it is. */
  lemma ExcludedFileUntouched(s: State, cfg: Config, files: seq<Listed>, i: nat)
    requires Agrees(files, s.live) && i < |files|
    requires StartsWith(files[i].path, cfg.excludeFolder)
    ensures Classify(cfg, files[i]) == Excluded && Destination(cfg, files[i]) == None
    ensures files[i].path in Run(s, cfg, files).live
    ensures Run(s, cfg, files).live[files[i].path] == files[i].contents
  {
    FileFate(s, cfg, files, i);
  }

  /** A known file whose digest equals the stored string stays in the tree. */
  lemma MatchedFileStays(s: State, cfg: Config, files: seq<Listed>, i: nat)
    requires Agrees(files, s.live) && i < |files|
    requires !StartsWith(files[i].path, cfg.excludeFolder)
    requires files[i].path in cfg.manifest && cfg.digest(files[i].contents) == cfg.manifest[files[i].path]
    ensures Classify(cfg, files[i]) == Matched
    ensures files[i].path in Run(s, cfg, files).live
    ensures Run(s, cfg, files).live[files[i].path] == files[i].contents
  {
    FileFate(s, cfg, files, i);
  }

  /**
   A moved file leaves the tree, and its base name is in its quarantine folder
   afterwards; if no later file is moved to the same folder under the same
   name, that entry holds its bytes.
   */
  lemma MovedFileQuarantined(s: State, cfg: Config, files: seq<Listed>, i: nat)
    requires i < |files| && Destination(cfg, files[i]).Some?
    requires forall j :: i < j < |files| && Destination(cfg, files[j]) == Destination(cfg, files[i]) ==> files[j].name != files[i].name
    ensures var r := Run(s, cfg, files); var f := Destination(cfg, files[i]).value;
            && files[i].path !in r.live
            && f in r.folders && files[i].name in r.folders[f]
            && r.folders[f][files[i].name] == files[i].contents
  {
    RunLive(s, cfg, files, files[i].path);
    QuarantineEntry(s, cfg, files, i);
  }

  lemma {:induction false} QuarantineEntry(s: State, cfg: Config, files: seq<Listed>, i: nat)
    requires i < |files| && Destination(cfg, files[i]).Some?
    requires forall j :: i < j < |files| && Destination(cfg, files[j]) == Destination(cfg, files[i]) ==> files[j].name != files[i].name
    ensures var r := Run(s, cfg, files); var f := Destination(cfg, files[i]).value;
            f in r.folders && files[i].name in r.folders[f] && r.folders[f][files[i].name] == files[i].contents
    decreases |files|
  {
    var n := |files| - 1;
    var prefix := files[..n];
    var last := files[n];
    var before := Run(s, cfg, prefix);
    assert Run(s, cfg, files) == Step(before, cfg, last);
    var f := Destination(cfg, files[i]).value;
    var name := files[i].name;
    if i < n {
      assert prefix[i] == files[i];
      forall j | i < j < |prefix| && Destination(cfg, prefix[j]) == Destination(cfg, prefix[i])
        ensures prefix[j].name != prefix[i].name
      {
        assert prefix[j] == files[j];
      }
      QuarantineEntry(s, cfg, prefix, i);
      assert f in before.folders && name in before.folders[f] && before.folders[f][name] == files[i].contents;
      match Destination(cfg, last) {
        case None =>
        case Some(g) =>
          assert g == f ==> last.name != name;
          var after := MoveTo(before, last.path, last.contents, g, last.name);
          assert after.folders[f][name] == files[i].contents;
      }
    }
  }

  /** An outdated file is moved out of the tree into the outdated folder under its base name. */
  lemma OutdatedFileMoved(s: State, cfg: Config, files: seq<Listed>, i: nat)
    requires i < |files|
    requires !StartsWith(files[i].path, cfg.excludeFolder)
    requires files[i].path in cfg.manifest && cfg.digest(files[i].contents) != cfg.manifest[files[i].path]
    requires forall j :: i < j < |files| && Destination(cfg, files[j]) == Some(cfg.outdatedFolder) ==> files[j].name != files[i].name
    ensures Classify(cfg, files[i]) == Outdated
    ensures files[i].path !in Run(s, cfg, files).live
    ensures files[i].name in FolderOf(Run(s, cfg, files).folders, cfg.outdatedFolder)
    ensures FolderOf(Run(s, cfg, files).folders, cfg.outdatedFolder)[files[i].name] == files[i].contents
  {
    MovedFileQuarantined(s, cfg, files, i);
  }

  /** An unknown file is moved out of the tree into the unknown folder under its base name. */
  lemma UnknownFileMoved(s: State, cfg: Config, files: seq<Listed>, i: nat)
    requires i < |files|
    requires !StartsWith(files[i].path, cfg.excludeFolder) && files[i].path !in cfg.manifest
    requires forall j :: i < j < |files| && Destination(cfg, files[j]) == Some(cfg.unknownFolder) ==> files[j].name != files[i].name
    ensures Classify(cfg, files[i]) == Unknown
    ensures files[i].path !in Run(s, cfg, files).live
    ensures files[i].name in FolderOf(Run(s, cfg, files).folders, cfg.unknownFolder)
    ensures FolderOf(Run(s, cfg, files).folders, cfg.unknownFolder)[files[i].name] == files[i].contents
  {
    MovedFileQuarantined(s, cfg, files, i);
  }

  /**
   The destination ignores the subdirectory: when a later file with the same
   base name is moved to the same folder, the earlier file is out of the tree
   and its folder entry holds the later file's bytes instead.
   */
  lemma FlatteningCollision(s: State, cfg: Config, files: seq<Listed>, i: nat, j: nat)
    requires i < j < |files|
    requires Destination(cfg, files[i]).Some? && Destination(cfg, files[j]) == Destination(cfg, files[i])
    requires files[j].name == files[i].name
    requires forall k :: j < k < |files| && Destination(cfg, files[k]) == Destination(cfg, files[j]) ==> files[k].name != files[j].name
    ensures var r := Run(s, cfg, files); var f := Destination(cfg, files[i]).value;
            && files[i].path !in r.live && files[j].path !in r.live
            && f in r.folders && files[i].name in r.folders[f]
            && r.folders[f][files[i].name] == files[j].contents
  {
    RunLive(s, cfg, files, files[i].path);
    MovedFileQuarantined(s, cfg, files, j);
  }

  /** Only the two quarantine folders can change; every other folder is as it was. */
  lemma {:induction false} OtherFoldersUnchanged(s: State, cfg: Config, files: seq<Listed>, f: Path)
    requires f != cfg.outdatedFolder && f != cfg.unknownFolder
    ensures f in Run(s, cfg, files).folders <==> f in s.folders
    ensures f in s.folders ==> Run(s, cfg, files).folders[f] == s.folders[f]
    decreases |files|
  {
    if files != [] {
      OtherFoldersUnchanged(s, cfg, files[..|files| - 1], f);
    }
  }

  /** Some listed file was moved into folder `f` under name `n`. */
  ghost predicate MovedInto(cfg: Config, files: seq<Listed>, f: Path, n: string)
  {
    exists i :: 0 <= i < |files| && Destination(cfg, files[i]) == Some(f) && files[i].name == n
  }

  /** A name was moved into a folder by all the files iff by the prefix or by the last file. */
  lemma MovedIntoLast(cfg: Config, files: seq<Listed>, f: Path, n: string)
    requires files != []
    ensures MovedInto(cfg, files, f, n) <==>
            MovedInto(cfg, files[..|files| - 1], f, n) ||
            (Destination(cfg, files[|files| - 1]) == Some(f) && files[|files| - 1].name == n)
  {
    var last := |files| - 1;
    var prefix := files[..last];
    if MovedInto(cfg, files, f, n) {
      var i :| 0 <= i < |files| && Destination(cfg, files[i]) == Some(f) && files[i].name == n;
      if i < last {
        assert prefix[i] == files[i];
      }
    }
    if MovedInto(cfg, prefix, f, n) {
      var i :| 0 <= i < |prefix| && Destination(cfg, prefix[i]) == Some(f) && prefix[i].name == n;
      assert files[i] == prefix[i];
    }
  }

  /**
   What a folder holds after the run: a name is there iff it was there before
   or some file was moved in under that name; an entry no moved file touched
   keeps its bytes; and no folder disappears. Together with `RunLive` this
   says the run changes nothing but what it moves.
   */
  lemma {:induction false} QuarantineFrame(s: State, cfg: Config, files: seq<Listed>, f: Path, n: string)
    ensures f in s.folders ==> f in Run(s, cfg, files).folders
    ensures n in FolderOf(Run(s, cfg, files).folders, f) <==> n in FolderOf(s.folders, f) || MovedInto(cfg, files, f, n)
    ensures n in FolderOf(s.folders, f) && !MovedInto(cfg, files, f, n) ==>
              FolderOf(Run(s, cfg, files).folders, f)[n] == FolderOf(s.folders, f)[n]
    decreases |files|
  {
    if files != [] {
      QuarantineFrame(s, cfg, files[..|files| - 1], f, n);
      MovedIntoLast(cfg, files, f, n);
    }
  }

  /**
   Manifest entries that no walked file has cause no action: dropping such a
   key changes neither the resulting file system nor any count. They still
   count towards `total_files`, so dropping one leaves the run's failure
   unchanged unless it is the manifest's only key (see `SoleKeyRemovalCrashes`).
   */
  lemma {:induction false} UnwalkedManifestKeyInert(s: State, cfg: Config, files: seq<Listed>, k: Path)
    requires forall i :: 0 <= i < |files| ==> files[i].path != k
    ensures Run(s, cfg.(manifest := cfg.manifest - {k}), files) == Run(s, cfg, files)
    ensures forall o :: CountOf(cfg.(manifest := cfg.manifest - {k}), files, o) == CountOf(cfg, files, o)
    ensures cfg.manifest.Keys != {k} ==> (Crashes(cfg.(manifest := cfg.manifest - {k}), files) <==> Crashes(cfg, files))
    decreases |files|
  {
    if files != [] {
      var n := |files| - 1;
      UnwalkedManifestKeyInert(s, cfg, files[..n], k);
      assert Classify(cfg.(manifest := cfg.manifest - {k}), files[n]) == Classify(cfg, files[n]);
    }
    if cfg.manifest.Keys != {k} {
      UnwalkedKeyKeepsFailure(cfg, files, k);
    }
  }

  lemma UnwalkedKeyKeepsFailure(cfg: Config, files: seq<Listed>, k: Path)
    requires forall i :: 0 <= i < |files| ==> files[i].path != k
    requires cfg.manifest.Keys != {k}
    ensures Crashes(cfg.(manifest := cfg.manifest - {k}), files) <==> Crashes(cfg, files)
  {
    var smaller := cfg.(manifest := cfg.manifest - {k});
    ManifestEmptyAfterRemoval(cfg.manifest, k);
    forall i | 0 <= i < |files|
      ensures Classify(smaller, files[i]) == Excluded <==> Classify(cfg, files[i]) == Excluded
    {
    }
  }

  /** Removing a key empties a map only when that key was its sole key or the map was empty. */
  lemma ManifestEmptyAfterRemoval(m: map<Path, string>, k: Path)
    requires m.Keys != {k}
    ensures |m - {k}| == 0 <==> |m| == 0
  {
    if |m| != 0 {
      var other :| other in m && other != k;
      assert other in m - {k};
    }
    if |m - {k}| != 0 {
      var other :| other in m - {k};
      assert other in m;
    }
  }

  /**
   The exception to the above: when the unwalked key is the manifest's only
   one, `total_files` drops to 0 and a listing with a file outside the
   exclusion prefix, which finished before, now fails.
   */
  lemma SoleKeyRemovalCrashes(cfg: Config, files: seq<Listed>, k: Path, i: nat)
    requires cfg.manifest.Keys == {k} && i < |files| && !StartsWith(files[i].path, cfg.excludeFolder)
    ensures !Crashes(cfg, files)
    ensures Crashes(cfg.(manifest := cfg.manifest - {k}), files)
  {
    assert k in cfg.manifest;
    var smaller := cfg.(manifest := cfg.manifest - {k});
    assert smaller.manifest == map[];
    assert Classify(smaller, files[i]) != Excluded;
  }

  /**
   Only known, non-excluded files are hashed: replacing the digest by any
   function that agrees on those files' bytes changes nothing, so the digest of
   an unknown or excluded file is never used.
   */
  lemma {:induction false} OnlyKnownFilesHashed(s: State, cfg: Config, files: seq<Listed>, other: Bytes -> string)
    requires forall i :: 0 <= i < |files| && !StartsWith(files[i].path, cfg.excludeFolder) && files[i].path in cfg.manifest
               ==> other(files[i].contents) == cfg.digest(files[i].contents)
    ensures Run(s, cfg.(digest := other), files) == Run(s, cfg, files)
    ensures forall o :: CountOf(cfg.(digest := other), files, o) == CountOf(cfg, files, o)
    decreases |files|
  {
    if files != [] {
      var n := |files| - 1;
      var prefix := files[..n];
      forall i | 0 <= i < |prefix| && !StartsWith(prefix[i].path, cfg.excludeFolder) && prefix[i].path in cfg.manifest
        ensures other(prefix[i].contents) == cfg.digest(prefix[i].contents)
      {
        assert prefix[i] == files[i];
      }
      OnlyKnownFilesHashed(s, cfg, prefix, other);
      assert Classify(cfg.(digest := other), files[n]) == Classify(cfg, files[n]);
    }
  }

  /**
   The exclusion test is a string prefix, not a folder match: with the default
   prefix `.local_storage`, a top-level file `.local_storageX` and anything
   under `.local_storage/` are skipped, while a file named `.local_storage`
   inside a subdirectory is not.
   */
  lemma ExclusionIsTextualPrefix(cfg: Config, contents: Bytes)
    requires cfg.excludeFolder == ".local_storage"
    ensures Classify(cfg, Listing([Entry("", ".local_storageX", contents)])[0]) == Excluded
    ensures Classify(cfg, Listing([Entry(".local_storage", "a", contents)])[0]) == Excluded
    ensures Classify(cfg, Listing([Entry("sub", ".local_storage", contents)])[0]) != Excluded
  {
    assert RelPath(Entry("", ".local_storageX", contents)) == ".local_storageX";
    assert RelPath(Entry(".local_storage", "a", contents)) == ".local_storage/a";
    assert RelPath(Entry("sub", ".local_storage", contents))[..|".local_storage"|] != ".local_storage";
  }

}
