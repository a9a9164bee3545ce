/** Backup export, verification and restore (crates/agentos-storage/src/backup.rs) over file
    system trees. SHA-256 is any function of the bytes. */
module Backup {
  import opened Wrappers
  import opened Ordering
  import opened StorageTree
  import opened BackupListing

  const LOCK_FILE := ".agentos-storage.lock"
  const MANIFEST_FILE := "manifest.json"
  const BACKUP_VERSION := 1

  /** The directories `verify_restored_layout` asks for. */
  const LAYOUT_DIRECTORIES: seq<string> := [
    "config", "conversations", "runs", "actions", "approvals", "audit",
    "artifacts", "knowledge", "indexes", "identity", "connectors"]

  datatype StorageManifest = StorageManifest(storageVersion: nat, content: string)

  datatype Manifest = Manifest(
    backupVersion: nat, storageVersion: nat, sourceManifest: StorageManifest, files: seq<FileEntry>)

  /** A backup directory: its manifest file, when it can be read, and its data directory. */
  datatype BackupDir = BackupDir(manifest: Option<Manifest>, data: Node)

  /** What the code relies on but this model does not contain: hashing, reading a storage
      manifest, and the artifact store's own verification. */
  datatype System = System(sha: Bytes -> string, parse: Bytes -> Option<StorageManifest>, artifactsVerify: Node -> bool)

  datatype Error =
    | Io
    | ManifestSerde
    | BackupTargetNotEmpty
    | BackupInvalidFilePath(path: string)
    | BackupFileMissing(path: string)
    | BackupIntegrityMismatch(path: string)
    | BackupUnexpectedFile(path: string)
    | RestoreIntegrityFailed

  predicate ShouldExport(name: string) {
    name != LOCK_FILE
  }

  predicate ShouldRestore(name: string) {
    true
  }

  // ---------------------------------------------------------------- entries by path

  /** Entries collected into a `BTreeMap`: the last one of a path stays. */
  function ByPath(entries: seq<FileEntry>): map<string, FileEntry> {
    if entries == [] then map[]
    else ByPath(entries[..|entries| - 1])[entries[|entries| - 1].path := entries[|entries| - 1]]
  }

  ghost predicate DistinctPaths(entries: seq<FileEntry>) {
    forall i, j | 0 <= i < j < |entries| :: entries[i].path != entries[j].path
  }

  lemma {:induction false} ByPathHolds(entries: seq<FileEntry>)
    ensures forall path | path in ByPath(entries) ::
              ByPath(entries)[path] in entries && ByPath(entries)[path].path == path
    ensures forall i | 0 <= i < |entries| :: entries[i].path in ByPath(entries)
    ensures DistinctPaths(entries) ==> forall i | 0 <= i < |entries| :: ByPath(entries)[entries[i].path] == entries[i]
  {
    if entries != [] {
      ByPathHolds(entries[..|entries| - 1]);
    }
  }

  /** The map says of every path whether there is a file and, if so, its length and hash. */
  ghost predicate Describes(sha: Bytes -> string, entries: map<string, FileEntry>, data: Node) {
    && (forall path :: path in entries <==> FileAt(data, path).Some?)
    && (forall path | path in entries && FileAt(data, path).Some? ::
          entries[path] == FileEntry(path, |FileAt(data, path).value|, sha(FileAt(data, path).value)))
  }

  lemma DescriptionIsUnique(sha: Bytes -> string, a: map<string, FileEntry>, b: map<string, FileEntry>, data: Node)
    requires Describes(sha, a, data) && Describes(sha, b, data)
    ensures a == b
  {
    assert forall path :: path in a <==> path in b;
  }

  /** The slash path of a file found in a directory leads back to the file. */
  lemma FoundAtSlashPath(node: Node, f: Found)
    requires node.Dir? && At(node, f.path) == Some(File(f.bytes))
    ensures f.path != [] && Split(Slash(f.path)) == f.path
    ensures FileAt(node, Slash(f.path)) == Some(f.bytes)
  {
    ReachedNamesAreNames(node, f.path);
    SplitSlash(f.path);
  }

  lemma ListedPathsAreDistinct(sha: Bytes -> string, found: seq<Found>, data: Node)
    requires data.Dir? && Lists(found, data)
    ensures DistinctPaths(EntriesOf(sha, [], found))
  {
    var entries := EntriesOf(sha, [], found);
    forall i, j | 0 <= i < j < |entries|
      ensures entries[i].path != entries[j].path
    {
      assert [] + found[i].path == found[i].path && [] + found[j].path == found[j].path;
      FoundAtSlashPath(data, found[i]);
      FoundAtSlashPath(data, found[j]);
    }
  }

  /** The entry of a listed file, under its slash path. */
  lemma EntryOfFound(sha: Bytes -> string, found: seq<Found>, data: Node, i: nat)
    requires data.Dir? && Lists(found, data) && i < |found|
    ensures
      var e := EntriesOf(sha, [], found)[i];
      FileAt(data, e.path) == Some(found[i].bytes) && e == FileEntry(e.path, |found[i].bytes|, sha(found[i].bytes))
  {
    assert [] + found[i].path == found[i].path;
    FoundAtSlashPath(data, found[i]);
  }

  lemma FileIsListed(sha: Bytes -> string, found: seq<Found>, data: Node, path: string)
    requires data.Dir? && Lists(found, data) && FileAt(data, path).Some?
    ensures exists i | 0 <= i < |found| :: EntriesOf(sha, [], found)[i].path == path
  {
    SlashSplit(path);
    assert Reaches(found, Split(path));
    var i :| 0 <= i < |found| && found[i].path == Split(path);
    assert [] + found[i].path == found[i].path;
    assert EntriesOf(sha, [], found)[i].path == path;
  }

  lemma ListingDescribes(sha: Bytes -> string, found: seq<Found>, data: Node)
    requires data.Dir? && Lists(found, data)
    ensures Describes(sha, ByPath(EntriesOf(sha, [], found)), data)
  {
    hide Lists, FileAt, ByPath;
    var entries := EntriesOf(sha, [], found);
    ByPathHolds(entries);
    ListedPathsAreDistinct(sha, found, data);
    forall path | path in ByPath(entries)
      ensures FileAt(data, path).Some?
      ensures ByPath(entries)[path] == FileEntry(path, |FileAt(data, path).value|, sha(FileAt(data, path).value))
    {
      var i :| 0 <= i < |entries| && entries[i] == ByPath(entries)[path];
      EntryOfFound(sha, found, data, i);
    }
    forall path | FileAt(data, path).Some?
      ensures path in ByPath(entries)
    {
      FileIsListed(sha, found, data, path);
    }
  }

  // ---------------------------------------------------------------- validation

  predicate IsValidPath(path: string) {
    path != "" && path[0] != '/' && path[0] != '\\' && ".." !in Split(path)
  }

  /** A valid path is not empty, starts with neither slash, and nowhere goes to a parent directory. */
  lemma ValidPathsExactly(path: string)
    ensures IsValidPath(path) <==>
      && path != "" && path[0] != '/' && path[0] != '\\'
      && !exists i: nat | i <= |path| :: IsComponentAt(path, "..", i)
  {
    ComponentsExactly(path, "..");
  }

  ghost predicate WellFormed(entries: seq<FileEntry>) {
    && (forall i | 0 <= i < |entries| :: IsValidPath(entries[i].path))
    && DistinctPaths(entries)
  }

  ghost predicate OccursBefore(entries: seq<FileEntry>, i: nat, path: string)
    requires i <= |entries|
  {
    exists j | 0 <= j < i :: entries[j].path == path
  }

  lemma WellFormedGrows(entries: seq<FileEntry>, i: nat)
    requires i < |entries| && WellFormed(entries[..i])
    ensures WellFormed(entries[..i + 1]) <==> IsValidPath(entries[i].path) && !OccursBefore(entries, i, entries[i].path)
    ensures WellFormed(entries) ==> WellFormed(entries[..i + 1])
  {
    hide IsValidPath;
    var front, longer := entries[..i], entries[..i + 1];
    assert longer == front + [entries[i]];
    assert longer[i] == entries[i];
    if OccursBefore(entries, i, entries[i].path) {
      var j :| 0 <= j < i && entries[j].path == entries[i].path;
      assert longer[j].path == longer[i].path;
    }
  }

  lemma ByPathGrows(entries: seq<FileEntry>, i: nat)
    requires i < |entries|
    ensures ByPath(entries[..i + 1]) == ByPath(entries[..i])[entries[i].path := entries[i]]
  {
    assert entries[..i + 1][..i] == entries[..i];
  }

  method ValidateManifestFileEntries(entries: seq<FileEntry>) returns (result: Result<map<string, FileEntry>, Error>)
    ensures result.Ok? <==> WellFormed(entries)
    ensures result.Ok? ==> result.value == ByPath(entries)
    ensures result.Err? ==> exists i | 0 <= i < |entries| ::
        || (result.error == BackupInvalidFilePath(entries[i].path) && !IsValidPath(entries[i].path))
        || (result.error == BackupIntegrityMismatch(entries[i].path) && OccursBefore(entries, i, entries[i].path))
  {
    hide IsValidPath, ByPath, WellFormed;
    var seen: set<string> := {};
    var validated: map<string, FileEntry> := map[];
    NothingToValidate(entries);
    for i := 0 to |entries|
      invariant WellFormed(entries[..i])
      invariant forall path :: path in seen <==> OccursBefore(entries, i, path)
      invariant validated == ByPath(entries[..i])
    {
      var entry := entries[i];
      WellFormedGrows(entries, i);
      ByPathGrows(entries, i);
      if !IsValidPath(entry.path) {
        return Err(BackupInvalidFilePath(entry.path));
      }
      if entry.path in seen {
        return Err(BackupIntegrityMismatch(entry.path));
      }
      seen := seen + {entry.path};
      validated := validated[entry.path := entry];
    }
    assert entries[..|entries|] == entries;
    return Ok(validated);
  }

  lemma NothingToValidate(entries: seq<FileEntry>)
    ensures WellFormed(entries[..0]) && ByPath(entries[..0]) == map[]
  {
  }

  // ---------------------------------------------------------------- verifying

  /** When a backup verifies, in terms of its tree alone. */
  ghost predicate Verifies(sha: Bytes -> string, backup: BackupDir) {
    && backup.manifest.Some? && backup.data.Dir?
    && WellFormed(backup.manifest.value.files)
    && Describes(sha, ByPath(backup.manifest.value.files), backup.data)
  }

  /** Comparing the manifest's entries with the actual ones, both in path order. */
  method CompareEntries(expected: map<string, FileEntry>, actual: map<string, FileEntry>)
    returns (result: Option<Error>)
    requires forall path | path in expected :: expected[path].path == path
    requires forall path | path in actual :: actual[path].path == path
    ensures result.None? <==> expected == actual
    ensures result.Some? ==>
      match result.value
      case BackupFileMissing(path) => path in expected && path !in actual
      case BackupIntegrityMismatch(path) => path in expected && path in actual && expected[path] != actual[path]
      case BackupUnexpectedFile(path) => path in actual && path !in expected
      case _ => false
  {
    hide IdsInOrder;
    var paths := SortIds(expected.Keys);
    IdsInOrderAreTheIds(expected.Keys);
    for i := 0 to |paths|
      invariant forall j | 0 <= j < i :: MatchesAt(expected, actual, paths[j])
    {
      assert paths[i] in paths;
      if paths[i] !in actual {
        return Some(BackupFileMissing(paths[i]));
      }
      if actual[paths[i]].byteLen != expected[paths[i]].byteLen
        || actual[paths[i]].sha256 != expected[paths[i]].sha256 {
        return Some(BackupIntegrityMismatch(paths[i]));
      }
    }
    var actualPaths := SortIds(actual.Keys);
    IdsInOrderAreTheIds(actual.Keys);
    for i := 0 to |actualPaths|
      invariant forall j | 0 <= j < i :: actualPaths[j] in expected
    {
      assert actualPaths[i] in actualPaths;
      if actualPaths[i] !in expected {
        return Some(BackupUnexpectedFile(actualPaths[i]));
      }
    }
    NothingDiffers(expected, actual, paths, actualPaths);
    return None;
  }

  predicate MatchesAt(expected: map<string, FileEntry>, actual: map<string, FileEntry>, path: string) {
    path in actual && path in expected && expected[path] == actual[path]
  }

  lemma NothingDiffers(expected: map<string, FileEntry>, actual: map<string, FileEntry>,
                       paths: seq<string>, actualPaths: seq<string>)
    requires forall path :: path in paths <==> path in expected
    requires forall path :: path in actualPaths <==> path in actual
    requires forall j | 0 <= j < |paths| :: MatchesAt(expected, actual, paths[j])
    requires forall j | 0 <= j < |actualPaths| :: actualPaths[j] in expected
    ensures expected == actual
  {
    assert forall path | path in expected :: path in paths;
    assert forall path | path in actual :: path in actualPaths;
  }

  /** What an error of `verify_backup` says is so. */
  ghost predicate IsDueTo(sha: Bytes -> string, backup: BackupDir, error: Error) {
    match error
    case Io => backup.manifest.None? || !backup.data.Dir?
    case BackupInvalidFilePath(path) =>
      backup.manifest.Some? && !IsValidPath(path) && exists e | e in backup.manifest.value.files :: e.path == path
    case BackupFileMissing(path) =>
      backup.manifest.Some? && path in ByPath(backup.manifest.value.files) && FileAt(backup.data, path).None?
    case BackupUnexpectedFile(path) =>
      backup.manifest.Some? && path !in ByPath(backup.manifest.value.files) && FileAt(backup.data, path).Some?
    case BackupIntegrityMismatch(path) =>
      && backup.manifest.Some? && path in ByPath(backup.manifest.value.files)
      && (!DistinctPaths(backup.manifest.value.files) ||
          (FileAt(backup.data, path).Some? &&
           ByPath(backup.manifest.value.files)[path] !=
           FileEntry(path, |FileAt(backup.data, path).value|, sha(FileAt(backup.data, path).value))))
    case _ => false
  }

  /** Verification accepts exactly when the manifest's path-to-(length, hash) map, on valid and
      distinct paths, is that of the data tree. */
  method VerifyBackup(sha: Bytes -> string, backup: BackupDir) returns (result: Result<Manifest, Error>)
    ensures result.Ok? <==> Verifies(sha, backup)
    ensures result.Ok? ==> backup.manifest == Some(result.value)
    ensures result.Err? ==> IsDueTo(sha, backup, result.error)
  {
    hide Lists, EntriesOf, ByPath, FileAt, IsValidPath;
    if backup.manifest.None? {
      return Err(Io);
    }
    var manifest := backup.manifest.value;
    var expected := ValidateManifestFileEntries(manifest.files);
    ByPathHolds(manifest.files);
    if expected.Err? {
      return Err(expected.error);
    }
    if !backup.data.Dir? {
      return Err(Io);
    }
    var entries, found := CollectInner(sha, [], backup.data);
    ListingDescribes(sha, found, backup.data);
    ByPathHolds(entries);
    var problem := CompareEntries(expected.value, ByPath(entries));
    if Describes(sha, expected.value, backup.data) {
      DescriptionIsUnique(sha, expected.value, ByPath(entries), backup.data);
    }
    return if problem.Some? then Err(problem.value) else Ok(manifest);
  }

  // ---------------------------------------------------------------- exporting

  /** `ensure_empty_or_create`: nothing there, or an empty directory. */
  predicate IsFree(target: Option<Node>) {
    target.None? || target.value == EMPTY_DIR
  }

  function TargetError(target: Option<Node>): Error {
    if target.Some? && target.value.Dir? then BackupTargetNotEmpty else Io
  }

  function ReadManifest(sys: System, root: Node): Result<StorageManifest, Error> {
    match FileAt(root, MANIFEST_FILE)
    case None => Err(Io)
    case Some(bytes) =>
      match sys.parse(bytes)
      case None => Err(ManifestSerde)
      case Some(manifest) => Ok(manifest)
  }

  /** What an export leaves behind: the tree without lock files and links, and a manifest listing
      exactly its files in path order. */
  ghost predicate IsExportOf(sys: System, backup: BackupDir, root: Node) {
    && root.Dir? && backup.data == Copied(root, ShouldExport)
    && backup.manifest.Some?
    && ReadManifest(sys, root) == Ok(backup.manifest.value.sourceManifest)
    && backup.manifest.value.backupVersion == BACKUP_VERSION
    && backup.manifest.value.storageVersion == backup.manifest.value.sourceManifest.storageVersion
    && DistinctPaths(backup.manifest.value.files)
    && Describes(sys.sha, ByPath(backup.manifest.value.files), backup.data)
    && PathOrder(backup.manifest.value.files)
  }

  ghost predicate PathOrder(files: seq<FileEntry>) {
    forall i, j | 0 <= i < j < |files| :: StringLe(files[i].path, files[j].path)
  }

  /** `sort_by` path; the paths are distinct, so there is one order. */
  method SortByPath(entries: seq<FileEntry>) returns (sorted: seq<FileEntry>)
    requires DistinctPaths(entries)
    ensures DistinctPaths(sorted) && PathOrder(sorted)
    ensures ByPath(sorted) == ByPath(entries)
  {
    hide IdsInOrder, ByPath;
    var byPath := ByPath(entries);
    var paths := SortIds(byPath.Keys);
    IdsInOrderAreTheIds(byPath.Keys);
    ByPathHolds(entries);
    assert forall i | 0 <= i < |paths| :: paths[i] in paths;
    sorted := seq(|paths|, i requires 0 <= i < |paths| && paths[i] in byPath => byPath[paths[i]]);
    InPathOrder(byPath, paths, sorted);
  }

  /** Listing a map by path, along its paths in order. */
  lemma InPathOrder(byPath: map<string, FileEntry>, paths: seq<string>, sorted: seq<FileEntry>)
    requires forall path | path in byPath :: byPath[path].path == path
    requires paths == IdsInOrder(byPath.Keys) && |sorted| == |paths|
    requires forall i | 0 <= i < |paths| :: paths[i] in byPath && sorted[i] == byPath[paths[i]]
    ensures DistinctPaths(sorted) && PathOrder(sorted) && ByPath(sorted) == byPath
  {
    hide IdsInOrder, ByPath;
    IdsInOrderAreTheIds(byPath.Keys);
    assert forall i | 0 <= i < |paths| :: sorted[i].path == paths[i];
    forall i, j | 0 <= i < j < |paths|
      ensures paths[i] != paths[j] && StringLe(paths[i], paths[j])
    {
      assert Lt(Key(0, paths[i]), Key(0, paths[j]));
    }
    ListedByPath(byPath, paths, sorted);
  }

  lemma ListedByPath(byPath: map<string, FileEntry>, paths: seq<string>, sorted: seq<FileEntry>)
    requires forall path :: path in paths <==> path in byPath
    requires |sorted| == |paths| && DistinctPaths(sorted)
    requires forall i | 0 <= i < |paths| ::
               sorted[i].path == paths[i] && paths[i] in byPath && sorted[i] == byPath[paths[i]]
    ensures ByPath(sorted) == byPath
  {
    hide ByPath;
    ByPathHolds(sorted);
    assert forall path | path in byPath :: path in paths;
    SameByPath(byPath, ByPath(sorted));
  }

  lemma SameByPath(a: map<string, FileEntry>, b: map<string, FileEntry>)
    requires forall path :: path in a <==> path in b
    requires forall path | path in a && path in b :: a[path] == b[path]
    ensures a == b
  {
  }

  method Export(sys: System, root: Node, target: Option<Node>) returns (result: Result<BackupDir, Error>)
    requires root.Dir?
    ensures result.Ok? <==> IsFree(target) && ReadManifest(sys, root).Ok?
    ensures result.Ok? ==> IsExportOf(sys, result.value, root)
    ensures result.Ok? ==>
      && result.value.manifest.Some? && result.value.manifest.value.backupVersion == 1
      && FileAt(root, "manifest.json").Some?
      && sys.parse(FileAt(root, "manifest.json").value) == Some(result.value.manifest.value.sourceManifest)
    ensures !(target.None? || target == Some(Dir(map[]))) ==>
              result == Err(if target.value.Dir? then BackupTargetNotEmpty else Io)
    ensures target.None? || target == Some(Dir(map[])) ==>
      match FileAt(root, "manifest.json")
      case None => result == Err(Io)
      case Some(bytes) => if sys.parse(bytes).None? then result == Err(ManifestSerde) else result.Ok?
    ensures result.Err? ==>
              Err(result.error) == if IsFree(target) then ReadManifest(sys, root) else Err(TargetError(target))
  {
    hide Describes, Lists, EntriesOf, ByPath, Copied, FileAt, DistinctPaths, PathOrder;
    if !IsFree(target) {
      return Err(TargetError(target));
    }
    var data := CopyDirContents(root, ShouldExport);
    CopiedEntries(root, ShouldExport);
    var entries, found := CollectInner(sys.sha, [], data);
    ListingDescribes(sys.sha, found, data);
    ListedPathsAreDistinct(sys.sha, found, data);
    var files := SortByPath(entries);
    var sourceManifest := ReadManifest(sys, root);
    if sourceManifest.Err? {
      return Err(sourceManifest.error);
    }
    var manifest := Manifest(BACKUP_VERSION, sourceManifest.value.storageVersion, sourceManifest.value, files);
    return Ok(BackupDir(Some(manifest), data));
  }

  // ---------------------------------------------------------------- restoring

  predicate LayoutOk(sys: System, root: Node) {
    && ReadManifest(sys, root).Ok?
    && forall i | 0 <= i < |LAYOUT_DIRECTORIES| ::
         At(root, [LAYOUT_DIRECTORIES[i]]).Some? && At(root, [LAYOUT_DIRECTORIES[i]]).value.Dir?
  }

  /** `verify_restored_layout` */
  method VerifyRestoredLayout(sys: System, root: Node) returns (problem: Option<Error>)
    ensures problem.None? <==> LayoutOk(sys, root)
    ensures problem.None? <==>
      && FileAt(root, "manifest.json").Some? && sys.parse(FileAt(root, "manifest.json").value).Some?
      && forall name | name in ["config", "conversations", "runs", "actions", "approvals", "audit", "artifacts",
                                "knowledge", "indexes", "identity", "connectors"] ::
           At(root, [name]).Some? && At(root, [name]).value.Dir?
    ensures problem.Some? ==>
      problem.value ==
      if ReadManifest(sys, root).Err? then ReadManifest(sys, root).error else RestoreIntegrityFailed
  {
    hide FileAt, At;
    var manifest := ReadManifest(sys, root);
    if manifest.Err? {
      return Some(manifest.error);
    }
    for i := 0 to |LAYOUT_DIRECTORIES|
      invariant forall j | 0 <= j < i ::
          At(root, [LAYOUT_DIRECTORIES[j]]).Some? && At(root, [LAYOUT_DIRECTORIES[j]]).value.Dir?
    {
      var dir := At(root, [LAYOUT_DIRECTORIES[i]]);
      if !(dir.Some? && dir.value.Dir?) {
        return Some(RestoreIntegrityFailed);
      }
    }
    return None;
  }

  /** The restored tree and its report's file count. Opening the artifact store creates nothing,
      because the layout check has already seen its directory. */
  method Restore(sys: System, backup: BackupDir, target: Option<Node>) returns (result: Result<(Node, nat), Error>)
    ensures result.Ok? <==>
      && Verifies(sys.sha, backup) && IsFree(target)
      && LayoutOk(sys, Copied(backup.data, ShouldRestore)) && sys.artifactsVerify(Copied(backup.data, ShouldRestore))
    ensures result.Ok? ==> target.None? || target == Some(Dir(map[]))
    ensures Verifies(sys.sha, backup) && !(target.None? || target == Some(Dir(map[]))) ==>
              result == Err(if target.value.Dir? then BackupTargetNotEmpty else Io)
    ensures result.Ok? ==>
      && result.value.0 == Copied(backup.data, ShouldRestore)
      && backup.manifest.Some? && result.value.1 == |backup.manifest.value.files|
    ensures result.Err? ==>
      if !Verifies(sys.sha, backup) then IsDueTo(sys.sha, backup, result.error)
      else if !IsFree(target) then result.error == TargetError(target)
      else result.error in {Io, ManifestSerde, RestoreIntegrityFailed}
  {
    hide Copied, LayoutOk, Verifies, IsDueTo;
    var manifest := VerifyBackup(sys.sha, backup);
    VerifiedHasData(sys.sha, backup);
    if manifest.Err? {
      return Err(manifest.error);
    }
    if !IsFree(target) {
      return Err(TargetError(target));
    }
    var root := CopyDirContents(backup.data, ShouldRestore);
    var problem := VerifyRestoredLayout(sys, root);
    if problem.Some? {
      return Err(problem.value);
    }
    if !sys.artifactsVerify(root) {
      return Err(RestoreIntegrityFailed);
    }
    return Ok((root, |manifest.value.files|));
  }

  lemma VerifiedHasData(sha: Bytes -> string, backup: BackupDir)
    ensures Verifies(sha, backup) ==> backup.data.Dir? && backup.manifest.Some?
  {
  }

  // ---------------------------------------------------------------- the round trip

  /** No exported file path starts with a backslash, which validation refuses. */
  ghost predicate NoBackslashPath(data: Node) {
    forall path | FileAt(data, path).Some? :: path == "" || path[0] != '\\'
  }

  /** Paths of files under a directory are valid but for a leading backslash. */
  lemma FilePathsAreValid(data: Node, path: string)
    requires data.Dir? && FileAt(data, path).Some?
    ensures IsValidPath(path) <==> path == "" || path[0] != '\\'
  {
    var names := Split(path);
    ReachedNamesAreNames(data, names);
    SlashSplit(path);
    assert IsName(names[0]);
    assert names[0] != "";
    assert path != "";
    assert path[0] == names[0][0];
    assert names[0][0] in names[0];
    assert path[0] != '/';
    forall name | name in names
      ensures name != ".."
    {
      var i :| 0 <= i < |names| && names[i] == name;
      assert IsName(names[i]);
    }
  }

  /** A fresh export verifies exactly when none of its file paths starts with a backslash. */
  lemma ExportVerifies(sys: System, root: Node, backup: BackupDir)
    requires IsExportOf(sys, backup, root)
    ensures Verifies(sys.sha, backup) <==> NoBackslashPath(Copied(root, ShouldExport))
  {
    hide FileAt, Copied, ByPath, IsValidPath;
    CopiedEntries(root, ShouldExport);
    var files := backup.manifest.value.files;
    ByPathHolds(files);
    forall path | FileAt(backup.data, path).Some?
      ensures IsValidPath(path) <==> path == "" || path[0] != '\\'
    {
      FilePathsAreValid(backup.data, path);
    }
    forall path | path in ByPath(files)
      ensures exists i | 0 <= i < |files| :: files[i].path == path
    {
      var i :| 0 <= i < |files| && files[i] == ByPath(files)[path];
    }
  }

  /** So a single file whose name starts with a backslash makes every fresh export unverifiable. */
  lemma BackslashNameFailsVerification(sys: System, root: Node, backup: BackupDir, name: Name)
    requires IsExportOf(sys, backup, root)
    requires name[0] == '\\' && name in root.entries && root.entries[name].File?
    ensures !Verifies(sys.sha, backup)
  {
    hide Copied, Verifies;
    ExportVerifies(sys, root, backup);
    OrdinaryNameIsCopied(root, name);
    assert At(root, [name]) == Some(root.entries[name]);
    CopyKeepsKind(root.entries[name], ShouldExport);
    SplitName(name);
    assert FileAt(Copied(root, ShouldExport), name).Some?;
  }

  lemma OrdinaryNameIsCopied(root: Node, name: string)
    requires root.Dir? && ShouldExport(name)
    ensures
      At(Copied(root, ShouldExport), [name]) ==
      if At(root, [name]).Some? && !At(root, [name]).value.Other?
      then Some(Copied(At(root, [name]).value, ShouldExport))
      else None
  {
    CopyKeepsContents(root, ShouldExport, [name]);
  }

  /** The layout survives the export. */
  lemma ExportKeepsLayout(sys: System, root: Node)
    requires root.Dir?
    ensures LayoutOk(sys, Copied(root, ShouldExport)) <==> LayoutOk(sys, root)
  {
    hide Copied, At;
    forall i | 0 <= i < |LAYOUT_DIRECTORIES|
      ensures
        var copy := At(Copied(root, ShouldExport), [LAYOUT_DIRECTORIES[i]]);
        var original := At(root, [LAYOUT_DIRECTORIES[i]]);
        (copy.Some? && copy.value.Dir?) <==> (original.Some? && original.value.Dir?)
    {
      OrdinaryNameIsCopied(root, LAYOUT_DIRECTORIES[i]);
      if At(root, [LAYOUT_DIRECTORIES[i]]).Some? {
        CopyKeepsKind(At(root, [LAYOUT_DIRECTORIES[i]]).value, ShouldExport);
      }
    }
    SplitName(MANIFEST_FILE);
    OrdinaryNameIsCopied(root, MANIFEST_FILE);
    if At(root, [MANIFEST_FILE]).Some? {
      CopyKeepsKind(At(root, [MANIFEST_FILE]).value, ShouldExport);
    }
  }

  lemma CopyKeepsKind(node: Node, shouldCopy: string -> bool)
    ensures Copied(node, shouldCopy).Dir? <==> node.Dir?
    ensures node.File? ==> Copied(node, shouldCopy) == node
    ensures Copied(node, shouldCopy).File? ==> node.File?
  {
  }

  /** What `restore` answers on an export of a tree: it succeeds exactly when no file path starts
      with a backslash, the target is free, the source had the storage layout and the artifacts
      verify; and then it has rebuilt the source tree without lock files and links. */
  lemma BackupRoundTrip(sys: System, root: Node, backup: BackupDir, target: Option<Node>)
    requires IsExportOf(sys, backup, root)
    ensures Copied(backup.data, ShouldRestore) == Copied(root, ShouldExport)
    ensures
      (&& Verifies(sys.sha, backup) && IsFree(target)
       && LayoutOk(sys, Copied(backup.data, ShouldRestore)) && sys.artifactsVerify(Copied(backup.data, ShouldRestore)))
      <==>
      (&& NoBackslashPath(Copied(root, ShouldExport)) && IsFree(target)
       && LayoutOk(sys, root) && sys.artifactsVerify(Copied(root, ShouldExport)))
  {
    CopyingACopy(root, ShouldExport, ShouldRestore);
    ExportVerifies(sys, root, backup);
    ExportKeepsLayout(sys, root);
  }

  /** The same as one run, exporting and restoring: when it succeeds, and what every path of the
      restored tree then holds. */
  method ExportAndRestore(sys: System, root: Node, backupTarget: Option<Node>, restoreTarget: Option<Node>)
    returns (result: Result<Node, Error>)
    requires root.Dir?
    ensures result.Ok? <==>
      && IsFree(backupTarget) && IsFree(restoreTarget)
      && NoBackslashPath(Copied(root, ShouldExport))
      && LayoutOk(sys, root) && sys.artifactsVerify(Copied(root, ShouldExport))
    ensures result.Ok? ==> result.value == Copied(root, ShouldExport)
    ensures result.Ok? ==> forall path ::
        FileAt(result.value, path) == if LOCK_FILE in Split(path) then None else FileAt(root, path)
    ensures result.Ok? ==> forall path | LOCK_FILE !in path ::
        At(root, path) == Some(EMPTY_DIR) ==> At(result.value, path) == Some(EMPTY_DIR)
  {
    hide IsExportOf, Verifies, LayoutOk, Copied, At, FileAt, NoBackslashPath;
    LayoutNeedsManifest(sys, root);
    var backup := Export(sys, root, backupTarget);
    if backup.Err? {
      return Err(backup.error);
    }
    BackupRoundTrip(sys, root, backup.value, restoreTarget);
    var restored := Restore(sys, backup.value, restoreTarget);
    if restored.Err? {
      return Err(restored.error);
    }
    forall path
      ensures FileAt(restored.value.0, path) == if LOCK_FILE in Split(path) then None else FileAt(root, path)
    {
      ExportedFile(root, path);
    }
    forall path | LOCK_FILE !in path && At(root, path) == Some(EMPTY_DIR)
      ensures At(restored.value.0, path) == Some(EMPTY_DIR)
    {
      EmptyDirectoryIsExported(root, path);
    }
    return Ok(restored.value.0);
  }

  lemma LayoutNeedsManifest(sys: System, root: Node)
    ensures LayoutOk(sys, root) ==> ReadManifest(sys, root).Ok?
  {
  }

  lemma ExportedFile(root: Node, path: string)
    requires root.Dir?
    ensures FileAt(Copied(root, ShouldExport), path) == if LOCK_FILE in Split(path) then None else FileAt(root, path)
  {
    hide Copied, At;
    var names := Split(path);
    CopyKeepsContents(root, ShouldExport, names);
    assert LOCK_FILE in names <==> !(forall i | 0 <= i < |names| :: ShouldExport(names[i]));
    if At(root, names).Some? {
      CopyKeepsKind(At(root, names).value, ShouldExport);
    }
  }

  lemma EmptyDirectoryIsExported(root: Node, path: seq<string>)
    requires root.Dir? && LOCK_FILE !in path && At(root, path) == Some(EMPTY_DIR)
    ensures At(Copied(root, ShouldExport), path) == Some(EMPTY_DIR)
  {
    CopyKeepsContents(root, ShouldExport, path);
    assert Copied(EMPTY_DIR, ShouldExport).entries == map[];
  }

  // ---------------------------------------------------------------- tampering

  /** If someone replaces the data of an exported backup and it still verifies, then every file is
      unchanged, or its path shows two contents of one length with one hash. */
  lemma TamperedFilesAreDetected(sys: System, root: Node, backup: BackupDir, data: Node, path: string)
    requires IsExportOf(sys, backup, root) && Verifies(sys.sha, backup.(data := data))
    ensures
      var original, present := FileAt(Copied(root, ShouldExport), path), FileAt(data, path);
      original == present ||
      (original.Some? && present.Some? && |original.value| == |present.value|
        && sys.sha(original.value) == sys.sha(present.value))
  {
    var entries := ByPath(backup.manifest.value.files);
    assert path in entries <==> FileAt(backup.data, path).Some?;
    assert path in entries <==> FileAt(data, path).Some?;
  }

  lemma EmptyDirectoryHoldsNoFile(data: Node, name: Name, path: string)
    requires data.Dir? && name !in data.entries
    ensures FileAt(Dir(data.entries[name := EMPTY_DIR]), path) == FileAt(data, path)
  {
    var names := Split(path);
    var tampered := Dir(data.entries[name := EMPTY_DIR]);
    if names[0] == name {
      assert At(tampered, names) == At(EMPTY_DIR, names[1..]);
      assert At(data, names).None?;
      assert At(EMPTY_DIR, names[1..]) == if names[1..] == [] then Some(EMPTY_DIR) else None;
    } else if names[0] in data.entries {
      assert At(tampered, names) == At(data.entries[AsName(data, names[0])], names[1..]);
    }
  }

  /** Verification covers files only: an empty directory slipped into the data goes unnoticed. */
  lemma EmptyDirectoriesAreNotCovered(sha: Bytes -> string, backup: BackupDir, name: Name)
    requires Verifies(sha, backup) && name !in backup.data.entries
    ensures Verifies(sha, backup.(data := Dir(backup.data.entries[name := EMPTY_DIR])))
  {
    hide FileAt, ByPath, WellFormed;
    forall path
      ensures FileAt(Dir(backup.data.entries[name := EMPTY_DIR]), path) == FileAt(backup.data, path)
    {
      EmptyDirectoryHoldsNoFile(backup.data, name, path);
    }
  }
}
