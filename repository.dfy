/**
 * `FileSystemWordDocumentsRepository`: where the documents folder is and
 * which `.docx` files it holds. The host's file system is a parameter, and
 * so are the files a recursive enumeration of the folder finds.
 */
module WordDocumentsRepository {
  import opened Text
  import opened Ordering
  import opened HostFileSystem

  /** A point in time (`DateTimeOffset`), supplied by the caller. */
  type Timestamp = int

  datatype WordDocumentFile = WordDocumentFile(fullPath: string, relativePath: string, lastWriteTimeUtc: Timestamp, lengthBytes: int)

  /** A file the enumeration found: its full path, its path relative to the root as the host spells it, its time and size. */
  datatype FoundFile = FoundFile(fullPath: string, relativePath: string, lastWriteTimeUtc: Timestamp, lengthBytes: int)

  /** `NormalizeRelativePath`: both separator characters become `/`. */
  function NormalizeRelativePath(fs: FileSystem, relativePath: string): (r: string)
    ensures |r| == |relativePath|
    ensures forall i | 0 <= i < |r| ::
      r[i] == if relativePath[i] == fs.directorySeparator || relativePath[i] == fs.altDirectorySeparator then '/' else relativePath[i]
  {
    ReplaceChar(ReplaceChar(relativePath, fs.directorySeparator, '/'), fs.altDirectorySeparator, '/')
  }

  /** A normalised path holds no separator other than `/`, and normalising it again changes nothing. */
  lemma NormalizeRelativePathIdempotent(fs: FileSystem, relativePath: string)
    ensures var r := NormalizeRelativePath(fs, relativePath);
      && (forall i | 0 <= i < |r| :: r[i] == fs.directorySeparator || r[i] == fs.altDirectorySeparator ==> r[i] == '/')
      && NormalizeRelativePath(fs, r) == r
  {
    var r := NormalizeRelativePath(fs, relativePath);
    var rr := NormalizeRelativePath(fs, r);
    assert |rr| == |r|;
    forall i | 0 <= i < |r| ensures rr[i] == r[i] {
    }
  }

  /**
   * `ResolveDirectoryPath`: a rooted path as it is; otherwise the path under
   * the base directory when that exists, else the one under the current
   * directory when that exists, else the one under the base directory.
   */
  function ResolveDirectoryPath(fs: FileSystem, configuredPath: string): string {
    if fs.isPathRooted(configuredPath) then configuredPath
    else
      var baseDirectoryCandidate := fs.combine(fs.baseDirectory, configuredPath);
      if fs.directoryExists(baseDirectoryCandidate) then baseDirectoryCandidate
      else
        var currentDirectoryCandidate := fs.combine(fs.currentDirectory, configuredPath);
        if fs.directoryExists(currentDirectoryCandidate) then currentDirectoryCandidate
        else baseDirectoryCandidate
  }

  /**
   * A relative path resolves under one of the two directories; to an
   * existing directory whenever one of the candidates exists; and under the
   * current directory only when the base directory's candidate is missing.
   */
  lemma ResolveDirectoryPathChoice(fs: FileSystem, configuredPath: string)
    ensures fs.isPathRooted(configuredPath) ==> ResolveDirectoryPath(fs, configuredPath) == configuredPath
    ensures !fs.isPathRooted(configuredPath) ==>
      var b := fs.combine(fs.baseDirectory, configuredPath);
      var c := fs.combine(fs.currentDirectory, configuredPath);
      var r := ResolveDirectoryPath(fs, configuredPath);
      && (r == b || r == c)
      && (fs.directoryExists(b) || fs.directoryExists(c) <==> fs.directoryExists(r))
      && (fs.directoryExists(b) ==> r == b)
      && (r != b ==> !fs.directoryExists(b) && fs.directoryExists(c))
  {
  }

  /** The repository's `RootPath`: the configured folder, resolved. */
  function RootPath(fs: FileSystem, configuredRootPath: string): string {
    ResolveDirectoryPath(fs, configuredRootPath)
  }

  function PathKey(f: WordDocumentFile): seq<int> {
    FoldKey(f.relativePath)
  }

  function ToWordDocumentFile(fs: FileSystem, f: FoundFile): WordDocumentFile {
    WordDocumentFile(f.fullPath, NormalizeRelativePath(fs, f.relativePath), f.lastWriteTimeUtc, f.lengthBytes)
  }

  /**
   * `ListAsync`: nothing when the root folder does not exist, otherwise every
   * found file with its relative path normalised, ordered by that path
   * ignoring case.
   */
  function Listed(fs: FileSystem, rootPath: string, found: seq<FoundFile>): seq<WordDocumentFile> {
    if !fs.directoryExists(rootPath) then []
    else SortBy(seq(|found|, i requires 0 <= i < |found| => ToWordDocumentFile(fs, found[i])), PathKey)
  }

  /**
   * The listing is empty for a missing root; otherwise it is sorted by path
   * ignoring case and lists exactly the found files, each once, with its
   * path normalised.
   */
  lemma ListedFacts(fs: FileSystem, rootPath: string, found: seq<FoundFile>)
    ensures !fs.directoryExists(rootPath) ==> Listed(fs, rootPath, found) == []
    ensures fs.directoryExists(rootPath) ==>
      var files := seq(|found|, i requires 0 <= i < |found| => ToWordDocumentFile(fs, found[i]));
      && SortedBy(Listed(fs, rootPath, found), PathKey)
      && multiset(Listed(fs, rootPath, found)) == multiset(files)
      && |Listed(fs, rootPath, found)| == |found|
    ensures forall f | f in Listed(fs, rootPath, found) ::
      exists i | 0 <= i < |found| :: f == ToWordDocumentFile(fs, found[i])
  {
    if fs.directoryExists(rootPath) {
      var files := seq(|found|, i requires 0 <= i < |found| => ToWordDocumentFile(fs, found[i]));
      SortByMembers(files, PathKey);
      forall f | f in Listed(fs, rootPath, found)
        ensures exists i | 0 <= i < |found| :: f == ToWordDocumentFile(fs, found[i])
      {
        var i :| 0 <= i < |files| && files[i] == f;
      }
    }
  }
}
