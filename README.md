# Checksum manifest generator and verifier: a Dafny model

The repository has two scripts that walk a directory tree and hash every file
with SHA-256, reading it in blocks of 4096 bytes:

- `hash_generator.py` builds a manifest, a dictionary from file path to hex
  digest. It skips files whose base name is on an exclusion list.
- `hash_verifier.py` compares a live tree with a manifest. A file whose
  relative path starts with the exclusion prefix (`.local_storage` by
  default) is skipped. A file whose path is a manifest key with an equal
  digest stays where it is. One whose digest differs is moved to the
  outdated folder, and one with no key is moved, unhashed, to the unknown
  folder. Both moves keep only the file's base name.

This model replaces I/O with values:

- The walk is a sequence of `Entry(dirRel, name, contents)` in walk order.
  The verifier first turns each entry into a `Listed(path, name, contents)`,
  where `path` is the `os.path.relpath` of the file; `Listing` does this for a
  whole walk, and the verifier's specification and lemmas are stated over it.
- SHA-256 is a function parameter `digest: Bytes -> string` that the model
  leaves uninterpreted.
- The file system the verifier changes is a `FileSystem` object. It holds the
  live tree (a map from relative path to bytes) and the folders outside it (a
  map from folder path to a map from file name to bytes).

Modules:

- `Hasher` (hasher.dfy): the `calculate_sha256` block loop, shared by both
  scripts. A `Reader` class stands for the open file and a `Sha256` class for
  the accumulator.
- `Walk` (walk.dfy): entries, POSIX `os.path.join`, `str.startswith`, the
  walk's roots, and the two path forms. The generator uses
  `os.path.join(root, file)`; the verifier uses `os.path.relpath`.
- `Generator` (generator.dfy): `get_file_checksums`.
- `Verifier` (verifier.dfy): `verify_and_move_files` and the properties of a
  run.
- `EndToEnd` (endtoend.dfy): the two scripts together (see Findings) and the
  concrete run with one unchanged and one modified file.

Each imperative method is proved against a specification function:

- `GetFileChecksums` against `Checksums`.
- `VerifyAndMoveFiles` against `Run`, `CountOf` and `Crashes`.
- `CalculateSha256` against `Chunks`.

The lemmas state what the source promises about those functions.

A manifest is meant to be keyed by relative path, the form the verifier looks
up. The generator, however, keys it by `os.path.join(root, file)`, and the
model follows the code. Findings below covers the consequences.

## Model

| member | source | states |
|---|---|---|
| Hasher.CalculateSha256 | hash_generator.py:6-12 | the result is the digest of exactly the file's bytes, and the blocks read, stopping at the first empty read, are the content cut into successive reads of 4096 (the same loop is at hash_verifier.py:16-22) |
| Hasher.ChunksFlatten | hash_verifier.py:19-21 | the blocks fed to the accumulator, concatenated in order, are the whole file |
| Hasher.ChunksBounded | hash_generator.py:10 | every block is non-empty and at most 4096 bytes, all but the last are exactly 4096, and there are ceil(size/4096) blocks |
| Hasher.Reader.Read | hash_generator.py:10 | `read(4096)` returns the next up to 4096 bytes and advances the position; it returns empty only at end of file |
| Hasher.Sha256.Update | hash_generator.py:11 | the accumulator's fed sequence grows by exactly the block |
| Walk.FilePathIsJoinOfRelPath | hash_generator.py:31-34 | `os.path.join(root, file)` equals the scanned directory joined with the file's relative path, and differs from the relative path whenever the directory is non-empty |
| Walk.FilePathInjective | hash_generator.py:34 | files with different relative paths get different joined paths |
| Generator.GetFileChecksums | hash_generator.py:21-44 | the dictionary is the one specified by `Checksums`; `total_files` is the number of walked files; `scanned_files` is the number not excluded, is at most `total_files`, and equals the dictionary's size when the walk lists each file once |
| Generator.ChecksumsKeys | hash_generator.py:31-36 | a path is a key iff it is `os.path.join(root, file)` of some walked file whose base name is not excluded |
| Generator.ChecksumsValues | hash_generator.py:34-36 | every walked file whose base name is not excluded has an entry, and it holds the digest of that file's bytes |
| Generator.ExcludedNameHasNoKey | hash_generator.py:33 | a file whose base name is in the exclusion list has no entry, whatever directory it is in |
| Generator.ManifestKeysArePrefixed | hash_generator.py:34-36 | for a walk without repeated paths, the key of every included file is the scanned directory joined with its relative path, and its value is that file's digest |
| Generator.ChecksumsSize | hash_generator.py:33-39 | the dictionary has exactly one entry per included file |
| Generator.NewKeyIsFresh | hash_generator.py:36 | each insertion adds a new key, because no earlier file has the same path |
| Generator.NoExclusionKeepsEveryFile | hash_generator.py:23-24 | when the exclusion list is `None`, every walked file is counted and gets an entry |
| Verifier.EnsureFolder | hash_verifier.py:38-41 | afterwards the folder exists; an existing folder and its files are left exactly as they were, so a second run with the folders present changes nothing; the live tree and other folders are untouched |
| Verifier.FileSystem.MakeDirsIfAbsent | hash_verifier.py:38-39 | the object's new state is `EnsureFolder` of its old state |
| Verifier.FileSystem.Move | hash_verifier.py:63 | the file leaves the live tree, and the destination folder gets an entry under the given name holding its bytes, overwriting any earlier one |
| Verifier.HandleFile | hash_verifier.py:54-69 | one iteration: the outcome is the classification, with exclusion tested first; a file that is not excluded fails with a division by zero, before any move, exactly when `total_files` is 0; otherwise the new state is the specified step (moved for outdated or unknown, unchanged otherwise) |
| Verifier.VerifyAndMoveFiles | hash_verifier.py:33-74 | folders are created if absent, then the files are handled in walk order; the run fails iff the manifest is empty and some file is not excluded, leaving only the created folders; otherwise the final state is `Run` and `scanned_files` is the number of files not excluded |
| Verifier.ExcludedPrefixInert | hash_verifier.py:54-55 | handling files that are all excluded changes nothing, so a run that fails has moved nothing |
| Verifier.NoMoveNoChange | hash_verifier.py:64-65 | a run in which no file is classified outdated or unknown leaves the file system unchanged |
| Verifier.ListingDistinct | hash_verifier.py:49-51 | the relative paths computed for a walk repeat none exactly when the walk lists no file twice, the property the generator's lemmas assume |
| Verifier.CountsPartition | hash_verifier.py:49-71 | every walked file has exactly one outcome, so excluded + matched + outdated + unknown is the number of walked files |
| Verifier.RunLive | hash_verifier.py:49-69 | after the run a path is in the live tree iff it was there before and no walked file was moved away from it; the files that remain keep their bytes |
| Verifier.FileFate | hash_verifier.py:54-69 | a walked file stays in the tree with its bytes iff it is excluded or matched, and is gone iff it is outdated or unknown |
| Verifier.ExcludedFileUntouched | hash_verifier.py:54-55 | a file whose relative path starts with the exclusion prefix is not classified, not moved and stays with its bytes |
| Verifier.MatchedFileStays | hash_verifier.py:57-65 | a known file whose digest equals the stored string stays in the tree unchanged |
| Verifier.OutdatedFileMoved | hash_verifier.py:57-63 | a known file whose digest differs leaves the tree and is in the outdated folder under its base name, unless a later file takes that name |
| Verifier.UnknownFileMoved | hash_verifier.py:66-69 | a file whose relative path is not a key leaves the tree and is in the unknown folder under its base name, unless a later file takes that name |
| Verifier.MovedFileQuarantined | hash_verifier.py:60-69 | a moved file's base name is in its destination folder afterwards, holding its bytes, when no later file moves to the same folder under the same name |
| Verifier.FlatteningCollision | hash_verifier.py:63-69 | the destination depends only on the folder and the base name: two moved files with the same name in different directories both leave the tree, and the folder keeps only the later one's bytes |
| Verifier.OtherFoldersUnchanged | hash_verifier.py:49-69 | no folder other than the outdated and unknown folders is created, removed or changed |
| Verifier.QuarantineFrame | hash_verifier.py:60-69 | for any folder, including the two quarantine folders: a name is in it after the run iff it was there before or some file was moved in under that name; an entry no move touched keeps its bytes, so files left from an earlier run survive; no folder disappears |
| Verifier.UnwalkedManifestKeyInert | hash_verifier.py:43-57 | a manifest entry with no walked file causes no action: removing it changes neither the final state nor any count, and, unless it is the manifest's only key, not whether the run fails with a division by zero either |
| Verifier.SoleKeyRemovalCrashes | hash_verifier.py:43-67 | the exception: when the unwalked entry is the only key and some file lies outside the exclusion prefix, the run with the key finishes, and the run without it fails, since `total_files` becomes 0 |
| Verifier.OnlyKnownFilesHashed | hash_verifier.py:57-59 | only non-excluded files with a manifest key are hashed: any digest that agrees on those files gives the same state and counts |
| Verifier.ExclusionIsTextualPrefix | hash_verifier.py:54 | `.local_storageX` and `.local_storage/a` are excluded, but `sub/.local_storage` is not |
| EndToEnd.GeneratedManifestMissesLookup | hash_generator.py:34-36 | as written, for a one-file tree under a non-empty directory, the manifest holds the file under the joined path but not under the relative path the verifier looks up, so the verifier moves the file to the unknown folder |
| EndToEnd.GeneratedManifestMissesLookupExample | hash_verifier.py:51-57 | concretely, scanning `a.txt` in directory `game` yields the only key `game/a.txt`, and the verifier classifies `a.txt` as unknown |
| EndToEnd.CorrectedManifestRoundTrip | hash_verifier.py:43-69 | with a manifest keyed by relative path over the same unmodified tree, the run does not fail, every file is excluded or matched, nothing moves and no file counts as outdated or unknown |
| EndToEnd.ModifiedFileScenario | hash_verifier.py:54-63 | with `a.txt`="hello" and `b.txt`="world", and a manifest storing the digests of "hello" and "wrong", `a.txt` stays and `b.txt` is moved into the outdated folder, provided the digest separates "world" from "wrong" |

## Findings

| source | as written | input that shows it | evidently intended | confidence | as-written member | corrected member |
|---|---|---|---|---|---|---|
| hash_generator.py:34-36 | manifest keys are `os.path.join(root, file)`, so they start with the scanned directory, while hash_verifier.py:51-57 looks files up by `os.path.relpath` | the generator scans directory `game` holding `a.txt`; the manifest is `{"game/a.txt": ...}`; the verifier on the same tree looks up `a.txt`, finds no key and moves it to `unknown/` | keys relative to the scanned directory, so that verifying an unmodified tree against its own manifest matches every file | medium; not executed | EndToEnd.GeneratedManifestMissesLookup | EndToEnd.CorrectedManifestRoundTrip |

The corrected manifest is `EndToEnd.RelativeChecksums`, which keys each file
by its relative path. One further gap remains in the round trip. The generator
excludes files by base name, while the verifier excludes by path prefix. A
file the generator left out by name, but which sits outside the prefix (for
example `sub/.local_storage`), is unknown to the verifier. The corrected
round-trip lemma therefore requires every name-excluded file to lie under the
prefix.

## Left out

- `download_hashes_json`, `save_checksums_to_json` and both `main` functions are not modelled: they are the HTTP fetch, the JSON file written with `json.dump`, and the `input()` prompt.
- JSON loading is not modelled; the manifest is given directly as a `map<string, string>`.
- SHA-256 and `hexdigest` are an uninterpreted `digest` parameter. The model does not assume collision resistance, except where `ModifiedFileScenario` states it as a precondition.
- The drawing done by `print_progress_bar` is not modelled: floating point, `round`, `time.sleep` and stdout.
- The percentages themselves are not modelled, but the `ZeroDivisionError` that `scanned_files / total_files` raises with an empty manifest is (`Verifier.Report.DivisionByZero`).
- Verifier.VerifyAndMoveFiles: returns only `scanned_files`, the one counter the source keeps; the numbers of matched, outdated and unknown files are stated by `CountOf` and its lemmas instead.
- `os.walk` is the given entry sequence. The model does not cover real directory order, unreadable directories, or the case where a quarantine folder lies inside the scanned tree. In that case files already moved could be walked and moved a second time.
- `os.path.relpath` and `os.path.join` are modelled as POSIX string concatenation. Normalisation, absolute second arguments and Windows separators are not modelled.
- `shutil.move` is modelled as a map update that overwrites the destination. The model does not cover cross-device copies, a failed move, or a destination that is a directory.
- A failure to open or read a file, which would raise `IOError`, is not modelled: both callers open files the walk has just listed. `Verifier.VerifyAndMoveFiles` therefore requires that the walk agrees with the live tree.
- `os.path.exists` being true for a plain file named like a quarantine folder is not modelled; folders are a separate map.
- The counters of `get_file_checksums` are locals in Python, used only for progress output; the model returns them as extra results so that their values can be stated.
